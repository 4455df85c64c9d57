/** The life of a webhook delivery (tinycloud-node-server/src/webhook_dispatcher.rs, tinycloud-core/src/db.rs). */
module Webhook {
  import opened Order

  datatype Status = Pending | Retrying | Delivered | DeadLetter

  datatype Row = Row(status: Status, attempts: nat, nextAttemptAt: Option<int>, deliveredAt: Option<int>)

  /** How one dispatch goes: it cannot be tried at all, the callback accepts it, or it fails and may be retried. */
  datatype Outcome = Hopeless | Accepted | Failed

  const FRESH := Row(Pending, 0, None, None)

  predicate Terminal(row: Row) {
    row.status == Delivered || row.status == DeadLetter
  }

  /** The rows `list_due_webhook_deliveries` selects. */
  predicate Due(row: Row, now: int) {
    (row.status == Pending || row.status == Retrying) && (row.nextAttemptAt.None? || row.nextAttemptAt.value <= now)
  }

  function RetryDelay(attempt: nat): nat {
    if attempt == 2 then 30
    else if attempt == 3 then 120
    else if attempt == 4 then 600
    else if attempt == 5 then 3600
    else 0
  }

  /** The row after one dispatch. */
  function Dispatched(row: Row, outcome: Outcome, now: int, maxAttempts: nat): Row {
    var attempt := row.attempts + 1;
    match outcome
    case Hopeless => Row(DeadLetter, attempt, None, None)
    case Accepted => Row(Delivered, attempt, None, Some(now))
    case Failed =>
      if attempt + 1 > maxAttempts then Row(DeadLetter, attempt, None, None)
      else Row(Retrying, attempt, Some(now + RetryDelay(attempt + 1)), None)
  }

  class Delivery {
    var status: Status
    var attempts: nat
    var nextAttemptAt: Option<int>
    var deliveredAt: Option<int>

    function AsRow(): Row
      reads this
    {
      Row(status, attempts, nextAttemptAt, deliveredAt)
    }

    constructor ()
      ensures AsRow() == FRESH
    {
      status, attempts, nextAttemptAt, deliveredAt := Pending, 0, None, None;
    }

    method MarkDelivered(attempt: nat, now: int)
      modifies this
      ensures AsRow() == Row(Delivered, attempt, None, Some(now))
    {
      status, attempts, nextAttemptAt, deliveredAt := Delivered, attempt, None, Some(now);
    }

    method MarkFailed(attempt: nat, next: Option<int>, deadLetter: bool)
      modifies this
      ensures AsRow() == Row(if deadLetter then DeadLetter else Retrying, attempt, next, None)
    {
      status := if deadLetter then DeadLetter else Retrying;
      attempts, nextAttemptAt, deliveredAt := attempt, next, None;
    }

    method Dispatch(outcome: Outcome, now: int, maxAttempts: nat)
      modifies this
      ensures AsRow() == Dispatched(old(AsRow()), outcome, now, maxAttempts)
    {
      var current := attempts + 1;
      match outcome
      case Hopeless => MarkFailed(current, None, true);
      case Accepted => MarkDelivered(current, now);
      case Failed =>
        var next := current + 1;
        if next > maxAttempts {
          MarkFailed(current, None, true);
        } else {
          MarkFailed(current, Some(now + RetryDelay(next)), false);
        }
    }
  }

  // ---- Every run of the dispatcher over one delivery ----

  datatype Event = Event(outcome: Outcome, now: int)

  /** The dispatcher takes the row whenever it is due, and the row update succeeds. */
  ghost predicate IsRun(maxAttempts: nat, rows: seq<Row>, events: seq<Event>) {
    && |rows| == |events| + 1 && rows[0] == FRESH
    && forall i :: 0 <= i < |events| ==>
         Due(rows[i], events[i].now) && rows[i + 1] ==
           Dispatched(rows[i], events[i].outcome, events[i].now, maxAttempts)
  }

  /** Attempts count dispatches; a row that waits has attempts left and a time set. */
  predicate RowOk(row: Row, maxAttempts: nat, dispatches: nat) {
    && row.attempts == dispatches
    && (row.status == Pending ==> row == FRESH)
    && (row.status == Retrying ==> row.attempts < maxAttempts && row.nextAttemptAt.Some? && row.deliveredAt.None?)
    && (row.status == Delivered ==> row.nextAttemptAt.None? && row.deliveredAt.Some?)
    && (row.status == DeadLetter ==> row.nextAttemptAt.None? && row.deliveredAt.None?)
    && row.attempts <= maxAttempts
  }

  lemma {:induction false} RunKeepsRow(maxAttempts: nat, rows: seq<Row>, events: seq<Event>, i: nat)
    requires maxAttempts >= 1 && IsRun(maxAttempts, rows, events) && i <= |events|
    ensures RowOk(rows[i], maxAttempts, i)
  {
    if i > 0 {
      RunKeepsRow(maxAttempts, rows, events, i - 1);
      assert Due(rows[i - 1], events[i - 1].now);
    }
  }

  /** No run has more dispatches than the maximum, and one that reaches it has ended. */
  lemma EndsWithinMaximum(maxAttempts: nat, rows: seq<Row>, events: seq<Event>)
    requires maxAttempts >= 1 && IsRun(maxAttempts, rows, events)
    ensures |events| <= maxAttempts
    ensures |events| == maxAttempts ==> Terminal(rows[|events|])
  {
    RunKeepsRow(maxAttempts, rows, events, |events|);
  }

  /** A terminal row is never selected again. */
  lemma TerminalIsFinal(maxAttempts: nat, rows: seq<Row>, events: seq<Event>, i: nat)
    requires IsRun(maxAttempts, rows, events) && i <= |events| && Terminal(rows[i])
    ensures i == |events| && forall now :: !Due(rows[i], now)
  {
  }

  /** The seconds between a failed dispatch, by its number, and the next: 30, then 2 minutes, 10 minutes and an hour. */
  function Wait(dispatch: nat): nat {
    if 1 <= dispatch <= 4 then [30, 120, 600, 3600][dispatch - 1] else 0
  }

  /** A run that can go no further has ended: a row that is not terminal is due exactly from a known time on. */
  lemma NeverStuck(maxAttempts: nat, rows: seq<Row>, events: seq<Event>)
    requires maxAttempts >= 1 && IsRun(maxAttempts, rows, events) && !Terminal(rows[|events|])
    ensures |events| < maxAttempts
    ensures forall now :: Due(rows[|events|], now) <==>
            (events == [] || now >= events[|events| - 1].now + Wait(|events|))
  {
    RunKeepsRow(maxAttempts, rows, events, |events|);
    if events != [] {
      RunKeepsRow(maxAttempts, rows, events, |events| - 1);
    }
  }

  /** Every dispatch but the last failed, and the next was never sooner than its wait. */
  lemma DispatchesSpaced(maxAttempts: nat, rows: seq<Row>, events: seq<Event>, i: nat)
    requires maxAttempts >= 1 && IsRun(maxAttempts, rows, events) && 0 < i < |events|
    ensures events[i - 1].outcome == Failed && events[i].now >= events[i - 1].now + Wait(i)
  {
    RunKeepsRow(maxAttempts, rows, events, i - 1);
    RunKeepsRow(maxAttempts, rows, events, i);
  }

  /** A delivery is given up only after a hopeless attempt or when all attempts have failed. */
  lemma {:induction false} DeadLetterMeans(maxAttempts: nat, rows: seq<Row>, events: seq<Event>)
    requires maxAttempts >= 1 && IsRun(maxAttempts, rows, events) && events != []
    ensures rows[|events|].status == Delivered <==> events[|events| - 1].outcome == Accepted
    ensures rows[|events|].deliveredAt == if events[|events| - 1].outcome == Accepted
            then Some(events[|events| - 1].now) else None
    ensures rows[|events|].status == DeadLetter <==>
            events[|events| - 1].outcome == Hopeless ||
              (events[|events| - 1].outcome == Failed && |events| == maxAttempts)
  {
    RunKeepsRow(maxAttempts, rows, events, |events| - 1);
    RunKeepsRow(maxAttempts, rows, events, |events|);
  }
}
