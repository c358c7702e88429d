/**
 * The playback scheduler of App.tsx (lines 176-184): each received chunk is
 * started at max(cursor, currentTime) and the cursor then moves to the end
 * of that chunk. Time is the output context's clock in seconds.
 */
module Playback {
  import Pcm

  /** A source started at `start` that plays for `duration` seconds. */
  datatype Scheduled = Scheduled(start: real, duration: real) {
    function End(): real { start + duration }
  }

  /** A received chunk: the context time when its handler ran and the
    * number of mono frames it decodes to. */
  datatype Chunk = Chunk(now: real, frames: nat)

  /** `Math.max(nextStartTimeRef.current, outputCtx.currentTime)`. */
  function StartTime(cursor: real, now: real): (t: real)
    ensures t >= cursor && t >= now
    ensures t == cursor || t == now
  {
    if cursor >= now then cursor else now
  }

  /** The source one chunk becomes. */
  function Place(cursor: real, c: Chunk): (s: Scheduled)
    ensures s.start >= cursor && s.start >= c.now
    ensures s.duration == Pcm.Duration(c.frames)
    ensures s.End() >= s.start
  {
    Scheduled(StartTime(cursor, c.now), Pcm.Duration(c.frames))
  }

  /** The sources a run of chunks becomes, starting from a cursor. */
  function ScheduleAll(cursor: real, chunks: seq<Chunk>): (r: seq<Scheduled>)
    ensures |r| == |chunks|
    decreases |chunks|
  {
    if chunks == [] then []
    else
      var s := Place(cursor, chunks[0]);
      [s] + ScheduleAll(s.End(), chunks[1..])
  }

  /** The cursor after a run of chunks. */
  function FinalCursor(cursor: real, chunks: seq<Chunk>): real
    decreases |chunks|
  {
    if chunks == [] then cursor else FinalCursor(Place(cursor, chunks[0]).End(), chunks[1..])
  }

  /** No source starts before its chunk arrived. */
  lemma {:induction false} StartsAfterArrival(cursor: real, chunks: seq<Chunk>, k: nat)
    requires k < |chunks|
    ensures ScheduleAll(cursor, chunks)[k].start >= chunks[k].now
    decreases |chunks|
  {
    if k > 0 {
      StartsAfterArrival(Place(cursor, chunks[0]).End(), chunks[1..], k - 1);
    }
  }

  /** Consecutive sources never overlap: each starts no earlier than the
    * previous one ends. */
  lemma {:induction false} NoOverlap(cursor: real, chunks: seq<Chunk>, k: nat)
    requires k + 1 < |chunks|
    ensures ScheduleAll(cursor, chunks)[k].End() <= ScheduleAll(cursor, chunks)[k + 1].start
    decreases |chunks|
  {
    var rest := ScheduleAll(Place(cursor, chunks[0]).End(), chunks[1..]);
    if k > 0 {
      NoOverlap(Place(cursor, chunks[0]).End(), chunks[1..], k - 1);
    } else {
      assert rest[0] == Place(Place(cursor, chunks[0]).End(), chunks[1]);
    }
  }

  /** The cursor never moves backwards, and it ends no earlier than the
    * last scheduled source. */
  lemma {:induction false} CursorAdvances(cursor: real, chunks: seq<Chunk>)
    ensures FinalCursor(cursor, chunks) >= cursor
    ensures chunks != [] ==> FinalCursor(cursor, chunks) == ScheduleAll(cursor, chunks)[|chunks| - 1].End()
    decreases |chunks|
  {
    if chunks != [] {
      CursorAdvances(Place(cursor, chunks[0]).End(), chunks[1..]);
    }
  }

  /** A chunk that arrives before the queue has drained starts exactly where
    * the previous one ends, so playback is gapless; one that arrives later
    * starts at once. */
  lemma {:induction false} BackToBack(cursor: real, chunks: seq<Chunk>, k: nat)
    requires k + 1 < |chunks|
    ensures var r := ScheduleAll(cursor, chunks);
      (chunks[k + 1].now <= r[k].End() ==> r[k + 1].start == r[k].End()) &&
      (chunks[k + 1].now > r[k].End() ==> r[k + 1].start == chunks[k + 1].now)
    decreases |chunks|
  {
    if k > 0 {
      BackToBack(Place(cursor, chunks[0]).End(), chunks[1..], k - 1);
    } else {
      var rest := ScheduleAll(Place(cursor, chunks[0]).End(), chunks[1..]);
      assert rest[0] == Place(Place(cursor, chunks[0]).End(), chunks[1]);
    }
  }
}
