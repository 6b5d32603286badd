/** What the ingest-time cursor consumes, what it can skip, and exactly when. */
module Cursor {
  import opened Collections
  import opened Model
  import opened Engine

  /** The committed log in ingest order. */
  ghost predicate IngestOrdered(log: seq<Event>) {
    forall i, j | 0 <= i < j < |log| :: log[i].ingestedAt <= log[j].ingestedAt
  }

  ghost predicate IngestIncreasing(log: seq<Event>) {
    forall i, j | 0 <= i < j < |log| :: log[i].ingestedAt < log[j].ingestedAt
  }

  function Pending(log: seq<Event>, cursor: int): seq<Event> {
    Filter(log, After(cursor))
  }

  /** In an ordered log the pending events are the tail beyond the cursor. */
  lemma {:induction false} PendingIsTail(log: seq<Event>, cursor: int) returns (n: nat)
    requires IngestOrdered(log)
    ensures n <= |log| && Pending(log, cursor) == log[n..]
    ensures forall k | 0 <= k < n :: log[k].ingestedAt <= cursor
    ensures forall k | n <= k < |log| :: log[k].ingestedAt > cursor
  {
    if log == [] {
      n := 0;
    } else {
      var rest := log[..|log| - 1];
      n := PendingIsTail(rest, cursor);
      var last := log[|log| - 1];
      if last.ingestedAt > cursor {
        assert log[n..] == rest[n..] + [last];
      } else {
        assert n == |rest|;
        n := |log|;
      }
    }
  }

  /** The batch is the head of the pending events. */
  lemma BatchIsHead(log: seq<Event>, cursor: int)
    requires IngestOrdered(log)
    ensures NextBatch(log, cursor) == Take(Pending(log, cursor), BATCH_LIMIT)
  {
    var n := PendingIsTail(log, cursor);
    var p := Pending(log, cursor);
    assert Sorted(p, ByIngest) by {
      forall i, j | 0 <= i < j < |p|
        ensures ByIngest(p[i], p[j])
      {
        assert p[i] == log[n + i] && p[j] == log[n + j];
      }
    }
    SortOfSorted(p, ByIngest);
  }

  lemma {:induction false} LatestIsLast(batch: seq<Event>)
    requires batch != [] && IngestOrdered(batch)
    ensures LatestIngest(batch) == batch[|batch| - 1].ingestedAt
  {
    if |batch| == 1 {
    } else {
      LatestIsLast(batch[..|batch| - 1]);
    }
  }

  /** The batch edge falls between two equal ingest times. */
  ghost predicate TieAtEdge(p: seq<Event>) {
    |p| > BATCH_LIMIT && p[BATCH_LIMIT - 1].ingestedAt == p[BATCH_LIMIT].ingestedAt
  }

  /** Behind a batch at log positions `n` to `n + b` the next cursor's tail starts
      right away exactly when the edge does not split equal times. */
  lemma TailIff(log: seq<Event>, n: nat, m: nat, b: nat, next: int)
    requires IngestOrdered(log) && n + b <= m <= |log| && 0 < b && b == |Take(log[n..], BATCH_LIMIT)|
    requires next == log[n + b - 1].ingestedAt
    requires forall k | 0 <= k < m :: log[k].ingestedAt <= next
    requires forall k | m <= k < |log| :: log[k].ingestedAt > next
    ensures m == n + b <==> !TieAtEdge(log[n..])
  {
    if n + b < |log| {
      assert log[n..][b] == log[n + b] && log[n..][b - 1] == log[n + b - 1];
    }
  }

  /** A cycle moves the cursor strictly forward, never offers a consumed event
      again, and skips no pending event exactly when the batch does not end in
      the middle of a run of equal ingest times. (The column is a plain DATETIME
      and the query is `ingested_at > cursor limit 3000`.) */
  lemma CursorLosesNothingIff(log: seq<Event>, cursor: int, batch: seq<Event>, next: int)
    requires IngestOrdered(log)
    requires batch == NextBatch(log, cursor) && batch != [] && next == LatestIngest(batch)
    ensures next > cursor
    ensures |batch| <= |Pending(log, cursor)| && batch == Pending(log, cursor)[..|batch|]
    ensures exists k :: |batch| <= k <= |Pending(log, cursor)| && Pending(log, next) == Pending(log, cursor)[k..]
    ensures Pending(log, next) == Pending(log, cursor)[|batch|..] <==> !TieAtEdge(Pending(log, cursor))
  {
    hide Filter, NextBatch, LatestIngest, TieAtEdge;
    BatchIsHead(log, cursor);
    var p := Pending(log, cursor);
    var n := PendingIsTail(log, cursor);
    var m := PendingIsTail(log, next);
    LatestIsLast(batch);
    var b := |batch|;
    assert next == log[n + b - 1].ingestedAt;
    assert m >= n + b;
    assert Pending(log, next) == log[m..] == p[m - n..];
    TailIff(log, n, m, b, next);
    assert p[m - n..] == p[b..] <==> m == n + b by {
      assert |p[m - n..]| == |log| - m && |p[b..]| == |log| - n - b;
    }
  }

  /** Events committed later are all still to come exactly when each is stamped
      strictly after the cursor. */
  lemma ArrivalsKeptIff(log: seq<Event>, es: seq<Event>, cursor: int)
    ensures Pending(log + es, cursor) == Pending(log, cursor) + es <==>
      forall k | 0 <= k < |es| :: es[k].ingestedAt > cursor
  {
    FilterConcat(log, es, After(cursor));
    if forall k | 0 <= k < |es| :: es[k].ingestedAt > cursor {
      FilterAll(es, After(cursor));
    } else {
      var k :| 0 <= k < |es| && es[k].ingestedAt <= cursor;
      FilterIn(es, After(cursor), es[k]);
      assert es[k] in es;
      assert Filter(es, After(cursor)) != es;
      var a := Pending(log, cursor);
      assert (a + es)[|a|..] == es && (a + Filter(es, After(cursor)))[|a|..] == Filter(es, After(cursor));
    }
  }

  /** A tie at the edge really loses an event: 3001 events stamped alike. */
  lemma EdgeTieLosesAnEvent(e: Event, cursor: int, log: seq<Event>)
    requires e.ingestedAt > cursor
    requires |log| == BATCH_LIMIT + 1 && forall k | 0 <= k < |log| :: log[k] == e.(id := log[k].id)
    ensures var next := LatestIngest(NextBatch(log, cursor));
      |NextBatch(log, cursor)| == BATCH_LIMIT && Pending(log, next) == []
  {
    BatchIsHead(log, cursor);
    FilterAll(log, After(cursor));
    LatestIsLast(NextBatch(log, cursor));
    FilterNone(log, After(e.ingestedAt));
  }
}
