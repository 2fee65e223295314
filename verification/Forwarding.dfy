/**
Backup forwarding of inbound mail: one row per (message, target), claimed under a
15-minute lease, then marked accepted or failed: the statements, and one driver's run over all
targets.  ForwardingRuns lets any number of drivers run against one target.
*/
module Forwarding {
  import opened Options
  import opened Sequences

  datatype Status = Pending | InFlight | Accepted | Failed

  datatype Row = Row(status: Status, attempts: nat, last: Option<nat>)

  const STALE_SECONDS: nat := 15 * 60

  /** datetime(last) <= datetime(now,'-15 minutes'): SQLite compares whole seconds. */
  predicate Stale(last: Option<nat>, now: nat) {
    last.None? || last.value / 1000 + STALE_SECONDS <= now / 1000
  }

  predicate Claimable(row: Row, now: nat) {
    row.status == Pending || row.status == Failed || (row.status == InFlight && Stale(row.last, now))
  }

  function ClaimedRow(row: Row, now: nat): Row { Row(InFlight, row.attempts + 1, Some(now)) }

  function FailedRow(row: Row): Row { if row.status == Accepted then row else row.(status := Failed) }

  function AcceptedRow(row: Row): Row { row.(status := Accepted) }

  const NEW_ROW: Row := Row(Pending, 0, None)

  /** The first instant at which a claim stamped `stamp` can be taken over. */
  function LeaseEnd(stamp: nat): nat { (stamp / 1000 + STALE_SECONDS) * 1000 }

  lemma LeaseEndIsExact(stamp: nat, now: nat)
    ensures Stale(Some(stamp), now) <==> LeaseEnd(stamp) <= now
    ensures 899_000 < LeaseEnd(stamp) - stamp <= 900_000
  {
  }

  // ---------------------------------------------------------------- the driver

  datatype Claim = Claimed | AlreadyAccepted | Busy

  datatype Outcome = Done | NotConfigured | LoopRefused | NoneAccepted

  /** What the outside does to one target's forward: whether forward() returns, and whether the accepted write commits. */
  datatype Luck = Luck(forwards: bool, marks: bool)

  /** One target's row after a driver has run: ensured, claimed if possible, forwarded, marked. */
  function Driven(row: Option<Row>, now: nat, luck: Luck): Row {
    var r := if row.None? then NEW_ROW else row.value;
    if !Claimable(r, now) then r
    else if luck.forwards && luck.marks then AcceptedRow(ClaimedRow(r, now))
    else FailedRow(ClaimedRow(r, now))
  }

  /** The driver counts this target as accepted. */
  predicate CountsAsAccepted(row: Option<Row>, now: nat, luck: Luck) {
    var r := if row.None? then NEW_ROW else row.value;
    r.status == Accepted || (Claimable(r, now) && luck.forwards)
  }

  /** One target, in the row's own columns: accepted stays as it is, and so does a claim whose lease has not run out; any
      other row, or none, gets one more attempt and today's stamp, and is accepted if the copy was sent and that could be
      written, else failed.  It counts as accepted if it was before, or if the copy was sent. */
  lemma DrivenSays(row: Option<Row>, now: nat, luck: Luck)
    ensures var r, held := Driven(row, now, luck),
                           row.Some? && row.value.status == InFlight && row.value.last.Some? && now < LeaseEnd(row.value.last.value);
            if row.Some? && (row.value.status == Accepted || held) then
              r == row.value && (CountsAsAccepted(row, now, luck) <==> row.value.status == Accepted)
            else
              && r.attempts == (if row.Some? then row.value.attempts else 0) + 1 && r.last == Some(now)
              && r.status == (if luck.forwards && luck.marks then Accepted else Failed)
              && (CountsAsAccepted(row, now, luck) <==> luck.forwards)
  {
    if row.Some? && row.value.last.Some? { LeaseEndIsExact(row.value.last.value, now); }
  }

  function Lookup(rows: map<string, Row>, target: string): Option<Row> {
    if target in rows then Some(rows[target]) else None
  }

  /** The attempt rows of one message. */
  class ForwardTable {
    var rows: map<string, Row>

    constructor ()
      ensures rows == map[]
    {
      rows := map[];
    }

    method EnsureAttemptRows(targets: seq<string>)
      modifies this
      ensures rows.Keys == old(rows).Keys + set t | t in targets
      ensures forall t :: t in rows ==> rows[t] == if t in old(rows) then old(rows)[t] else NEW_ROW
    {
      for i := 0 to |targets|
        invariant rows.Keys == old(rows).Keys + set t | t in targets[..i]
        invariant forall t :: t in rows ==> rows[t] == if t in old(rows) then old(rows)[t] else NEW_ROW
      {
        assert targets[..i + 1] == targets[..i] + [targets[i]];
        if targets[i] !in rows { rows := rows[targets[i] := NEW_ROW]; }
      }
      assert targets[..|targets|] == targets;
    }

    method ClaimTarget(target: string, now: nat) returns (r: Claim)
      requires target in rows
      modifies this
      ensures r == Claimed <==> Claimable(old(rows)[target], now)
      ensures r == AlreadyAccepted <==> old(rows)[target].status == Accepted
      ensures rows == if r == Claimed then old(rows)[target := ClaimedRow(old(rows)[target], now)] else old(rows)
    {
      if Claimable(rows[target], now) {
        rows := rows[target := ClaimedRow(rows[target], now)];
        return Claimed;
      }
      return if rows[target].status == Accepted then AlreadyAccepted else Busy;
    }

    /** If `commits` is false the statement throws and nothing is written. */
    method MarkForwardAccepted(target: string, commits: bool)
      requires target in rows
      modifies this
      ensures rows == if commits then old(rows)[target := AcceptedRow(old(rows)[target])] else old(rows)
    {
      if commits { rows := rows[target := AcceptedRow(rows[target])]; }
    }

    method MarkFailed(target: string)
      requires target in rows
      modifies this
      ensures rows == old(rows)[target := FailedRow(old(rows)[target])]
    {
      if rows[target].status != Accepted { rows := rows[target := rows[target].(status := Failed)]; }
    }

    /** The claiming pass. */
    method ClaimAll(targets: seq<string>, now: nat) returns (claimed: seq<string>, acceptedCount: nat, busyCount: nat)
      requires Distinct(targets) && forall t :: t in targets ==> t in rows
      modifies this
      ensures rows.Keys == old(rows).Keys
      ensures forall t :: t in rows ==>
        rows[t] == if t in targets && Claimable(old(rows)[t], now) then ClaimedRow(old(rows)[t], now) else old(rows)[t]
      ensures Distinct(claimed) && forall t :: t in claimed <==> t in targets && Claimable(old(rows)[t], now)
      ensures acceptedCount > 0 <==> AnyAccepted(old(rows), targets)
      ensures |targets| == |claimed| + acceptedCount + busyCount
    {
      claimed := [];
      acceptedCount, busyCount := 0, 0;
      for i := 0 to |targets|
        invariant rows.Keys == old(rows).Keys
        invariant forall t :: t in rows ==>
          rows[t] == if t in targets[..i] && Claimable(old(rows)[t], now) then ClaimedRow(old(rows)[t], now) else old(rows)[t]
        invariant Distinct(claimed) && forall t :: t in claimed <==> t in targets[..i] && Claimable(old(rows)[t], now)
        invariant acceptedCount > 0 <==> AnyAccepted(old(rows), targets[..i])
        invariant i == |claimed| + acceptedCount + busyCount
      {
        assert targets[..i + 1] == targets[..i] + [targets[i]];
        assert targets[i] !in targets[..i];
        AnyAcceptedAppend(old(rows), targets[..i], targets[i]);
        var state := ClaimTarget(targets[i], now);
        if state == Claimed { claimed := claimed + [targets[i]]; }
        else if state == AlreadyAccepted { acceptedCount := acceptedCount + 1; }
        else { busyCount := busyCount + 1; }
      }
      assert targets[..|targets|] == targets;
    }

    /** The forwarding pass over the claimed targets. */
    method ForwardAll(claimed: seq<string>, luck: map<string, Luck>) returns (acceptedCount: nat, failedCount: nat)
      requires Distinct(claimed) && forall t :: t in claimed ==> t in rows && t in luck
      modifies this
      ensures rows.Keys == old(rows).Keys
      ensures forall t :: t in rows ==>
        rows[t] == if t !in claimed then old(rows)[t]
                   else if luck[t].forwards && luck[t].marks then AcceptedRow(old(rows)[t]) else FailedRow(old(rows)[t])
      ensures acceptedCount > 0 <==> exists t :: t in claimed && luck[t].forwards
      ensures |claimed| <= acceptedCount + failedCount
    {
      acceptedCount, failedCount := 0, 0;
      for i := 0 to |claimed|
        invariant rows.Keys == old(rows).Keys
        invariant forall t :: t in rows ==>
          rows[t] == if t !in claimed[..i] then old(rows)[t]
                     else if luck[t].forwards && luck[t].marks then AcceptedRow(old(rows)[t]) else FailedRow(old(rows)[t])
        invariant acceptedCount > 0 <==> exists t :: t in claimed[..i] && luck[t].forwards
        invariant i <= acceptedCount + failedCount
      {
        assert claimed[..i + 1] == claimed[..i] + [claimed[i]];
        assert claimed[i] !in claimed[..i];
        var target := claimed[i];
        if luck[target].forwards {
          acceptedCount := acceptedCount + 1;
          MarkForwardAccepted(target, luck[target].marks);
          if !luck[target].marks {
            failedCount := failedCount + 1;
            MarkFailed(target);
          }
        } else {
          failedCount := failedCount + 1;
          MarkFailed(target);
        }
      }
      assert claimed[..|claimed|] == claimed;
    }

    /** The two passes over the targets, each driven independently of the others. */
    method DriveAll(targets: seq<string>, now: nat, luck: map<string, Luck>) returns (acceptedCount: nat, otherCount: nat)
      requires targets != [] && Distinct(targets) && forall t :: t in targets ==> t in luck
      modifies this
      ensures forall t :: t in rows <==> t in old(rows) || t in targets
      ensures forall t :: t in rows ==>
                rows[t] == if t in targets then Driven(Lookup(old(rows), t), now, luck[t]) else old(rows)[t]
      ensures acceptedCount > 0 <==> SomeAccepted(old(rows), targets, now, luck)
      ensures acceptedCount == 0 ==> otherCount > 0
    {
      EnsureAttemptRows(targets);
      ghost var ensured := rows;
      var claimed, already, busyCount := ClaimAll(targets, now);
      var newlyAccepted, failedCount := ForwardAll(claimed, luck);
      acceptedCount, otherCount := already + newlyAccepted, busyCount + failedCount;
      AcceptedIff(old(rows), ensured, targets, claimed, now, luck);
    }

    /** Untouched rows stay, and the call fails exactly when no target was or became accepted. */
    method ForwardInboundCopies(targets: seq<string>, recipient: string, now: nat, luck: map<string, Luck>) returns (r: Outcome)
      requires Distinct(targets) && forall t :: t in targets ==> t in luck
      modifies this
      ensures targets == [] ==> r == NotConfigured && rows == old(rows)
      ensures targets != [] && recipient in targets ==> r == LoopRefused && rows == old(rows)
      ensures targets != [] && recipient !in targets ==>
                && (forall t :: t in rows <==> t in old(rows) || t in targets)
                && (forall t :: t in rows ==>
                      rows[t] == if t in targets then Driven(Lookup(old(rows), t), now, luck[t]) else old(rows)[t])
                && (r == if SomeAccepted(old(rows), targets, now, luck) then Done else NoneAccepted)
    {
      if targets == [] { return NotConfigured; }
      if recipient in targets { return LoopRefused; }
      var acceptedCount, otherCount := DriveAll(targets, now, luck);
      r := if acceptedCount > 0 then Done else if otherCount > 0 then NoneAccepted else Done;
    }
  }

  /** Some target had been accepted, or is claimed and forwarded now. */
  ghost predicate SomeAccepted(rows: map<string, Row>, targets: seq<string>, now: nat, luck: map<string, Luck>)
    requires forall t :: t in targets ==> t in luck
  {
    exists t :: t in targets && CountsAsAccepted(Lookup(rows, t), now, luck[t])
  }

  lemma AcceptedIff(was: map<string, Row>, ensured: map<string, Row>, targets: seq<string>, claimed: seq<string>, now: nat,
                    luck: map<string, Luck>)
    requires forall t :: t in targets ==> t in luck && t in ensured
    requires forall t :: t in ensured ==> ensured[t] == if t in was then was[t] else NEW_ROW
    requires forall t :: t in claimed <==> t in targets && Claimable(ensured[t], now)
    ensures SomeAccepted(was, targets, now, luck) <==> AnyAccepted(ensured, targets) || exists t :: t in claimed && luck[t].forwards
  {
  }

  ghost predicate AnyAccepted(rows: map<string, Row>, targets: seq<string>) {
    exists t :: t in targets && t in rows && rows[t].status == Accepted
  }

  lemma AnyAcceptedAppend(rows: map<string, Row>, targets: seq<string>, t: string)
    ensures AnyAccepted(rows, targets + [t]) <==> AnyAccepted(rows, targets) || (t in rows && rows[t].status == Accepted)
  {
  }
}
