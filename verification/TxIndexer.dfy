/** Keeping the transaction index of the latest blocks, and only of those. */
module TxIndexers {
  import opened Common
  import opened Worlds

  datatype Progress = Progress(indexed: nat, remaining: nat)

  /** The first block whose transactions should be indexed when the chain ends at `head`. */
  function Window(limit: nat, cutoff: nat, head: nat): nat {
    Max(if limit != 0 && head >= limit then head - limit + 1 else 0, cutoff)
  }

  /** A block of the chain is in the window exactly when it is not below the cutoff and, if there is a limit,
      is one of the last that many. */
  lemma {:induction false} WindowIs(limit: nat, cutoff: nat, head: nat, n: nat)
    requires n <= head
    ensures Window(limit, cutoff, head) <= n <==> cutoff <= n && (limit == 0 || head - n < limit)
  {
  }

  lemma {:induction false} WindowGrows(limit: nat, cutoff: nat, a: nat, b: nat)
    requires a <= b
    ensures Window(limit, cutoff, a) <= Window(limit, cutoff, b) <= Max(b, cutoff)
  {
  }

  // ---- The database -----------------------------------------------------------------------

  /** What the database holds at some moment: the blocks with index entries, and the tail. */
  datatype Stored = Stored(index: set<nat>, tail: Option<nat>)

  /** One atomic write: entries added and deleted, and the tail written or deleted. */
  datatype Batch = Batch(put: set<nat>, del: set<nat>, tail: Option<nat>)

  function Perform(s: Stored, b: Batch): Stored {
    Stored(s.index + b.put - b.del, b.tail)
  }

  /** The database after a list of writes. */
  function Replay(s: Stored, ws: seq<Batch>): Stored {
    if ws == [] then s else Perform(Replay(s, ws[..|ws| - 1]), ws[|ws| - 1])
  }

  /** Exactly the blocks from `lo` to `head` are indexed. */
  ghost predicate Covers(index: set<nat>, lo: nat, head: nat) {
    forall n: nat :: n in index <==> lo <= n <= head
  }

  /** Exactly the blocks from the tail to the head are indexed; without a tail, none. */
  ghost predicate Consistent(index: set<nat>, tail: Option<nat>, head: nat) {
    if tail.None? then index == {} else tail.value <= head && Covers(index, tail.value, head)
  }

  /** The stored tail tells exactly which blocks are indexed. */
  ghost predicate Agrees(s: Stored, head: nat) {
    s.tail.Some? && Covers(s.index, s.tail.value, head)
  }

  ghost predicate AgreesAfter(s: Stored, ws: seq<Batch>, k: nat, head: nat)
    requires k <= |ws|
  {
    Agrees(Replay(s, ws[..k]), head)
  }

  /** Whenever the node stops after one of the writes, the stored tail tells which blocks are indexed. */
  ghost predicate CrashSafe(s: Stored, ws: seq<Batch>, head: nat) {
    forall k | 0 < k <= |ws| :: AgreesAfter(s, ws, k, head)
  }

  /** The writes `ws` led from `s` to `now`, safely at each of them. */
  ghost predicate Wrote(s: Stored, ws: seq<Batch>, now: Stored, head: nat) {
    now == Replay(s, ws) && CrashSafe(s, ws, head)
  }

  lemma {:induction false} WritesOn(s: Stored, ws: seq<Batch>, now: Stored, b: Batch, head: nat)
    requires Wrote(s, ws, now, head) && Agrees(Perform(now, b), head)
    ensures Wrote(s, ws + [b], Perform(now, b), head)
  {
    var all := ws + [b];
    assert all[..|ws|] == ws && all[..|all|] == all;
    forall k | 0 < k <= |all| ensures AgreesAfter(s, all, k, head) {
      if k <= |ws| {
        assert all[..k] == ws[..k];
        assert AgreesAfter(s, ws, k, head);
      }
    }
  }

  /** The stored tail determines the entries. */
  lemma {:induction false} OneIndex(a: set<nat>, b: set<nat>, tail: Option<nat>, head: nat)
    requires Consistent(a, tail, head) && Consistent(b, tail, head)
    ensures a == b
  {
  }

  lemma {:induction false} CoversDown(index: set<nat>, lo: nat, head: nat)
    requires Covers(index, lo, head) && 0 < lo <= head + 1
    ensures Covers(index + {lo - 1}, lo - 1, head)
  {
  }

  lemma {:induction false} CoversUp(index: set<nat>, lo: nat, head: nat)
    requires Covers(index, lo, head)
    ensures Covers(index - {lo}, lo + 1, head)
  {
  }

  /** The blocks above `a` up to `b`. */
  function Between(a: nat, b: nat): (s: set<nat>)
    ensures forall n: nat :: n in s <==> a < n <= b
  {
    if b <= a then {} else Between(a, b - 1) + {b}
  }

  /** Blocks that are added bring their entries, and blocks that are dropped lose theirs. */
  lemma {:induction false} CoversMoved(index: set<nat>, lo: nat, head: nat, n: nat)
    requires Covers(index, lo, head) && lo <= head + 1 && lo <= n + 1
    ensures Covers(index + Between(head, n) - Between(n, head), lo, n)
  {
  }

  // ---- The schedule of the runs -----------------------------------------------------------

  datatype Event = NewHead(number: nat) | RunEnds

  /** The head, the head that the run in progress was started at, and that of the last run that ended. */
  datatype Schedule = Schedule(head: nat, running: Option<nat>, ran: Option<nat>)

  function Next(s: Schedule, e: Event): Schedule {
    match e
    case NewHead(n) => Schedule(n, if s.running.None? then Some(n) else s.running, s.ran)
    case RunEnds => if s.running.None? then s else Schedule(s.head, None, s.running)
  }

  function After(s: Schedule, events: seq<Event>): Schedule {
    if events == [] then s else Next(After(s, events[..|events| - 1]), events[|events| - 1])
  }

  /** The chain is never cut back below where the indexer was started, nor below the window of a run in
      progress or of the last one. */
  ghost predicate Steady(limit: nat, cutoff: nat, start: nat, s: Schedule) {
    && start <= s.head && s.head + 1 < U64
    && (s.running.Some? ==> Window(limit, cutoff, s.running.value) <= s.head + 1)
    && (s.ran.Some? ==> Window(limit, cutoff, s.ran.value) <= s.head + 1)
  }

  ghost predicate AlwaysSteady(limit: nat, cutoff: nat, start: nat, events: seq<Event>) {
    forall k | 0 <= k <= |events| :: Steady(limit, cutoff, start, After(Schedule(start, Some(start), None), events[..k]))
  }

  /** The head before the `i`-th event. */
  ghost function HeadBefore(head: nat, events: seq<Event>, i: nat): nat
    requires i <= |events|
  {
    if i == 0 then head else if events[i - 1].NewHead? then events[i - 1].number else HeadBefore(head, events, i - 1)
  }

  ghost predicate Grows(head: nat, events: seq<Event>) {
    forall i | 0 <= i < |events| && events[i].NewHead? :: HeadBefore(head, events, i) <= events[i].number < U64 - 1
  }

  /** A chain that only grows, by however much at a time, is steady. */
  lemma {:induction false} GrowingIsSteady(limit: nat, cutoff: nat, start: nat, events: seq<Event>, k: nat)
    requires Grows(start, events) && k <= |events| && cutoff <= start < U64 - 1
    ensures var s := After(Schedule(start, Some(start), None), events[..k]);
            && Steady(limit, cutoff, start, s) && s.head == HeadBefore(start, events, k)
            && (s.running.Some? ==> start <= s.running.value <= s.head) && (s.ran.Some? ==> start <= s.ran.value <= s.head)
  {
    if k == 0 {
      WindowGrows(limit, cutoff, start, start);
    } else {
      GrowingIsSteady(limit, cutoff, start, events, k - 1);
      assert events[..k][..k - 1] == events[..k - 1];
      var s := After(Schedule(start, Some(start), None), events[..k]);
      WindowGrows(limit, cutoff, if s.running.Some? then s.running.value else 0, s.head);
      WindowGrows(limit, cutoff, if s.ran.Some? then s.ran.value else 0, s.head);
    }
  }

  function Heads(ns: seq<nat>): seq<Event> {
    if ns == [] then [] else Heads(ns[..|ns| - 1]) + [NewHead(ns[|ns| - 1])]
  }

  lemma {:induction false} HeadsDuringRun(idle: Schedule, n: nat, later: seq<nat>)
    requires idle.running.None?
    ensures After(idle, [NewHead(n)] + Heads(later)) == Schedule(if later == [] then n else later[|later| - 1], Some(n), idle.ran)
  {
    var run := [NewHead(n)] + Heads(later);
    if later == [] {
      assert run == [NewHead(n)] && run[..0] == [];
    } else {
      var front := [NewHead(n)] + Heads(later[..|later| - 1]);
      HeadsDuringRun(idle, n, later[..|later| - 1]);
      assert run == front + [NewHead(later[|later| - 1])] && run[..|front|] == front;
    }
  }

  /** A head that comes while no run is in progress is the one the next run works for; heads that come
      during that run are left to the run after. */
  lemma {:induction false} CatchesUp(idle: Schedule, n: nat, later: seq<nat>)
    requires idle.running.None?
    ensures var s := After(idle, [NewHead(n)] + Heads(later) + [RunEnds]);
            s.ran == Some(n) && s.running.None? && s.head == if later == [] then n else later[|later| - 1]
  {
    var run := [NewHead(n)] + Heads(later);
    assert (run + [RunEnds])[..|run|] == run;
    HeadsDuringRun(idle, n, later);
  }

  lemma {:induction false} TwoWrites(s: Stored, ws: seq<Batch>)
    requires |ws| == 2
    ensures Replay(s, ws[..1]) == Perform(s, ws[0]) && Replay(s, ws) == Perform(Perform(s, ws[0]), ws[1])
  {
    assert ws[..1] == [ws[0]] && ws[..1][..0] == [] && Replay(s, []) == s;
  }

  // ---- The indexer ------------------------------------------------------------------------

  class TxIndexer {
    const limit: nat
    const cutoff: nat
    /** The database: the blocks with index entries, and the stored tail. */
    var index: set<nat>
    var stored: Option<nat>
    /** What progress queries read. */
    var head: nat
    var tail: Option<nat>
    ghost var log: seq<Batch>  // the writes to the database, in order

    constructor (limit: nat, cutoff: nat, index: set<nat>, stored: Option<nat>, head: nat)
      ensures this.limit == limit && this.cutoff == cutoff && this.head == head && log == []
      ensures this.index == index && this.stored == stored && this.tail == stored
    {
      this.limit, this.cutoff, this.index, this.stored, this.head, this.tail := limit, cutoff, index, stored, head, stored;
      log := [];
    }

    ghost function Now(): Stored
      reads this
    {
      Stored(index, stored)
    }

    /** Writes a batch. */
    method Write(b: Batch)
      modifies this`index, this`stored, this`log
      ensures Now() == Perform(old(Now()), b) && log == old(log) + [b]
    {
      index, stored := index + b.put - b.del, b.tail;
      log := log + [b];
    }

    /** Writes a batch of a run, after which tail and entries agree. */
    method Flush(b: Batch, ghost s: Stored, ghost l: seq<Batch>, ghost ws: seq<Batch>, ghost h: nat) returns (ghost ws': seq<Batch>)
      requires Wrote(s, ws, Now(), h) && log == l + ws && Agrees(Perform(Now(), b), h)
      modifies this`index, this`stored, this`log
      ensures Now() == Perform(old(Now()), b) && log == l + ws' && Wrote(s, ws', Now(), h)
    {
      WritesOn(s, ws, Now(), b, h);
      Write(b);
      ws' := ws + [b];
      assert log == l + ws';
    }

    /** Indexes blocks downwards to `from`, starting below `end`, at most `count` of them if
        interrupted. Entries and tail reach the database in batches of about `size` blocks. */
    method IndexTransactions(from: nat, end: nat, count: nat, size: nat, ghost h: nat) returns (ghost ws: seq<Batch>)
      requires end <= h + 1 && Covers(index, end, h) && (stored.Some? ==> stored.value == end)
      modifies this`index, this`stored, this`log
      ensures from >= end ==> ws == []
      ensures from < end ==> stored == Some(if count >= end - from then from else end - count) && Covers(index, stored.value, h)
      ensures log == old(log) + ws && Wrote(old(Now()), ws, Now(), h)
    {
      ws := [];
      if from >= end { return; }
      var last: nat, pending: nat := end, 0;
      var batch: set<nat> := {};
      ghost var all := index;
      while last > from && end - last < count
        invariant from <= last <= end && end - last <= count
        invariant all == index + batch && Covers(all, last, h)
        invariant log == old(log) + ws && Wrote(old(Now()), ws, Now(), h)
        decreases last
      {
        CoversDown(all, last, h);
        last := last - 1;
        batch, pending, all := batch + {last}, pending + 1, all + {last};
        assert index + batch == all;
        if pending > size {
          assert index + batch - {} == all;
          ws := Flush(Batch(batch, {}, Some(last)), old(Now()), old(log), ws, h);
          batch, pending := {}, 0;
        }
      }
      assert index + batch - {} == all;
      ws := Flush(Batch(batch, {}, Some(last)), old(Now()), old(log), ws, h);
    }

    /** Unindexes blocks upwards from `from`, in the same manner. */
    method UnindexTransactions(from: nat, end: nat, count: nat, ghost h: nat) returns (ghost ws: seq<Batch>)
      requires end <= h + 1 && stored == Some(from) && Covers(index, from, h)
      modifies this`index, this`stored, this`log
      ensures from >= end ==> ws == []
      ensures from < end ==> stored == Some(if count >= end - from then end else from + count) && Covers(index, stored.value, h)
      ensures log == old(log) + ws && Wrote(old(Now()), ws, Now(), h)
    {
      ws := [];
      if from >= end { return; }
      var next: nat := from;
      var batch: set<nat> := {};
      ghost var all := index;
      while next < end && next - from < count
        invariant from <= next <= end && next - from <= count
        invariant all == index - batch && Covers(all, next, h)
        invariant log == old(log) + ws && Wrote(old(Now()), ws, Now(), h)
        decreases end - next
      {
        CoversUp(all, next, h);
        batch, all := batch + {next}, all - {next};
        assert index - batch == all;
        next := next + 1;
        if (next - from) % 1000 == 0 {
          assert index + {} - batch == all;
          ws := Flush(Batch({}, batch, Some(next)), old(Now()), old(log), ws, h);
          batch := {};
        }
      }
      assert index + {} - batch == all;
      ws := Flush(Batch({}, batch, Some(next)), old(Now()), old(log), ws, h);
    }

    /** Writes the tail and then deletes the entries that no longer belong. */
    method Purge(t: Option<nat>, dels: set<nat>) returns (ghost ws: seq<Batch>)
      modifies this`index, this`stored, this`tail, this`log
      ensures index == old(index) - dels && stored == tail == t
      ensures log == old(log) + ws && ws == [Batch({}, {}, t), Batch({}, dels, t)]
    {
      tail := t;
      Write(Batch({}, {}, t));
      Write(Batch({}, dels, t));
      ws := [Batch({}, {}, t), Batch({}, dels, t)];
      assert old(log) + [ws[0]] + [ws[1]] == old(log) + ws;
    }

    /** Deletes entries that no longer belong: all of them when the tail is above the head or the
        head below the cutoff, and those below the cutoff otherwise. The tail is written first: after a
        crash before the second write tail and entries disagree if and only if there was anything to
        delete. */
    method Repair(h: nat) returns (ghost ws: seq<Batch>)
      requires stored.Some? && stored.value <= h ==> Covers(index, stored.value, h)
      requires stored.None? ==> index == {}
      modifies this`index, this`stored, this`tail, this`log
      ensures Consistent(index, stored, h)
      ensures stored == if old(stored).None? || old(stored).value > h || h < cutoff then None else Some(Max(old(stored).value, cutoff))
      ensures tail == if stored == old(stored) then old(tail) else stored
      ensures log == old(log) + ws && Now() == Replay(old(Now()), ws) && index <= old(index)
      ensures if stored == old(stored) then ws == []
              else |ws| == 2 && Replay(old(Now()), ws[..1]) == Stored(old(index), stored)
                   && (Consistent(old(index), stored, h) <==> index == old(index))
    {
      ws := [];
      if stored.None? { return; }
      if stored.value > h || h < cutoff {
        ws := Purge(None, index);
      } else if stored.value < cutoff {
        ws := Purge(Some(cutoff), set n | n in index && n < cutoff);
      } else {
        return;
      }
      TwoWrites(old(Now()), ws);
      if Consistent(old(index), stored, h) {
        OneIndex(old(index), index, stored, h);
      }
    }

    /** Indexes or unindexes so that exactly the window of `at` up to the chain's head is indexed. The
        chain may have moved from `at` to `h` meanwhile, its blocks coming and going with their entries. */
    method Run(at: nat, count: nat, size: nat, ghost h: nat) returns (ghost ws: seq<Batch>)
      requires if stored.None? then at <= h && Covers(index, at + 1, h)
               else cutoff <= stored.value <= at + 1 && stored.value <= h + 1 && Covers(index, stored.value, h)
      requires at > 0 && at >= cutoff ==> Window(limit, cutoff, at) <= h + 1
      modifies this`index, this`stored, this`log
      ensures at == 0 || at < cutoff ==> ws == []
      ensures at > 0 && at >= cutoff ==> stored.Some? && stored.value <= at + 1 && Covers(index, stored.value, h)
      ensures at > 0 && at >= cutoff && count > at ==> stored == Some(Window(limit, cutoff, at))
      ensures at > 0 && at >= cutoff && count > at && at <= h ==>
                forall n: nat :: n in index <==> cutoff <= n <= h && (limit == 0 || n + limit > at)
      ensures log == old(log) + ws && Wrote(old(Now()), ws, Now(), h)
    {
      ws := [];
      if at == 0 || at < cutoff { return; }
      if stored.None? {
        var from := 0;
        if limit != 0 && at >= limit { from := at - limit + 1; }
        from := Max(from, cutoff);
        ws := IndexTransactions(from, at + 1, count, size, h);
        return;
      }
      var t := stored.value;
      if limit == 0 || at < limit {
        if t > 0 {
          ws := IndexTransactions(Max(0, cutoff), t, count, size, h);
        }
        return;
      }
      var from := Max(at - limit + 1, cutoff);
      if from < t {
        ws := IndexTransactions(from, t, count, size, h);
      } else {
        ws := UnindexTransactions(t, from, count, h);
      }
    }

    /** How many blocks are indexed and how many of the window are not yet. With a tail more than one
        above the head, the 64-bit difference wraps around and nearly all numbers count as indexed. */
    method Report(h: nat, t: Option<nat>) returns (p: Progress)
      requires h + 1 < U64 && (t.Some? ==> t.value < U64)
      ensures h < cutoff ==> p == Progress(0, 0)
      ensures h >= cutoff && (t.None? || t.value <= h + 1) ==>
                var size, done := h - Window(limit, cutoff, h) + 1, if t.Some? then h + 1 - t.value else 0;
                p == Progress(done, if done < size then size - done else 0)
      ensures h >= cutoff && t.Some? && t.value > h + 1 ==> p == Progress(U64 + h + 1 - t.value, 0)
    {
      if h < cutoff { return Progress(0, 0); }
      var total := limit;
      if limit == 0 || total > h { total := h + 1; }
      var length := h - cutoff + 1;
      if total > length { total := length; }
      var indexed := 0;
      if t.Some? { indexed := (h - t.value + 1) % U64; }
      var remaining := 0;
      if indexed < total { remaining := total - indexed; }
      return Progress(indexed, remaining);
    }

    /** The database and the fields agree with the schedule since the indexer was started at `start`. */
    ghost predicate Tracks(s: Schedule, start: nat)
      reads this
    {
      && Steady(limit, cutoff, start, s) && head == s.head && start > 0 && cutoff <= start && tail == stored
      && (if stored.Some? then cutoff <= stored.value <= head + 1 && Covers(index, stored.value, head) else Covers(index, start + 1, head))
      && (if s.ran.Some? then stored == Some(Window(limit, cutoff, s.ran.value))
          else s.running == Some(start) && (stored.Some? ==> stored.value <= start))
      && (s.running.Some? ==> start <= s.running.value && (s.ran.Some? ==> Window(limit, cutoff, s.ran.value) <= s.running.value + 1))
    }

    /** The chain moves to a head of any height, its blocks coming and going with their entries. */
    method Follow(n: nat)
      modifies this`head, this`index, this`stored, this`log
      ensures head == n && stored == old(stored) && log == old(log) + [Batch(Between(old(head), n), Between(n, old(head)), stored)]
      ensures index == old(index) + Between(old(head), n) - Between(n, old(head))
    {
      Write(Batch(Between(head, n), Between(n, head), stored));
      head := n;
    }

    method TakeEvent(e: Event, running: Option<nat>, size: nat, ghost s: Schedule, ghost start: nat) returns (running': Option<nat>)
      requires Tracks(s, start) && running == s.running && Steady(limit, cutoff, start, Next(s, e))
      modifies this`head, this`tail, this`index, this`stored, this`log
      ensures Tracks(Next(s, e), start) && running' == Next(s, e).running
    {
      running' := running;
      match e {
        case NewHead(n) =>
          CoversMoved(index, if stored.Some? then stored.value else start + 1, head, n);
          Follow(n);
          if running.None? {
            running' := Some(head);
          }
        case RunEnds =>
          if running.Some? {
            WindowGrows(limit, cutoff, running.value, running.value);
            var _ := Run(running.value, running.value + 1, size, head);
            tail := stored;
            running' := None;
          }
      }
    }

    /** The indexer from start-up on. It repairs, starts a run, and then takes events as they come; a
        run takes effect when it ends. A new head starts a run only if none is in progress. When one
        has ended, exactly the blocks from the window of the head it was started at up to the present
        head are indexed, and what remains is the part of the present window below that. */
    method Loop(events: seq<Event>, size: nat) returns (ghost s: Schedule, p: Progress)
      requires stored.Some? && stored.value <= head ==> Covers(index, stored.value, head)
      requires stored.None? ==> index == {}
      requires head > 0 && head >= cutoff && tail == stored && AlwaysSteady(limit, cutoff, head, events)
      modifies this
      ensures s == After(Schedule(old(head), Some(old(head)), None), events) && Tracks(s, old(head))
      ensures s.ran.Some? ==>
                && stored == tail == Some(Window(limit, cutoff, s.ran.value)) && Covers(index, stored.value, head)
                && p.remaining == (if stored.value <= Window(limit, cutoff, head) then 0 else stored.value - Window(limit, cutoff, head))
    {
      ghost var _ := Repair(head);
      ghost var start := head;
      var running: Option<nat> := Some(head);
      s := Schedule(head, running, None);
      assert Steady(limit, cutoff, start, After(s, events[..0]));
      for i := 0 to |events|
        invariant s == After(Schedule(start, Some(start), None), events[..i])
        invariant Tracks(s, start) && running == s.running
      {
        assert events[..i + 1][..i] == events[..i];
        assert Steady(limit, cutoff, start, After(Schedule(start, Some(start), None), events[..i + 1]));
        running := TakeEvent(events[i], running, size, s, start);
        s := Next(s, events[i]);
      }
      assert events[..|events|] == events;
      p := Report(head, tail);
    }
  }
}
