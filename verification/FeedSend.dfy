/** Sending on a feed, in place on the backing array of its case list. */
module FeedSends {
  import opened Ledgers
  import opened Runs
  import opened Feeds

  datatype Trace = Trace(states: seq<Feed>, steps: seq<Step>)

  /** A run of the protocol from `f` to `g`. */
  ghost predicate Traces(tr: Trace, f: Feed, g: Feed) {
    Path(Transition, tr.states, tr.steps) && tr.states[0] == f && tr.states[|tr.steps|] == g
  }

  ghost function Snoc(tr: Trace, step: Step, g: Feed): Trace {
    Trace(tr.states + [g], tr.steps + [step])
  }

  /** A send drained the inbox at step `d` of the run, with those subscriptions, and has not returned. */
  ghost predicate Since(tr: Trace, d: nat, present: multiset<Chan>) {
    && d < |tr.steps| < |tr.states| && Opens(tr.steps[d]) && tr.states[d + 1].live == present
    && forall j | d < j < |tr.steps| :: !Ends(tr.steps[j])
  }

  lemma {:induction false} StepOn(tr: Trace, g: Feed, step: Step, h: Feed)
    requires Traces(tr, INIT, g) && Transition(g, step, h)
    ensures Traces(Snoc(tr, step, h), INIT, h)
  {
    PathExtends(Transition, tr.states, tr.steps, step, h);
  }

  lemma {:induction false} SinceOn(tr: Trace, d: nat, p: multiset<Chan>, step: Step, h: Feed)
    requires Since(tr, d, p) && |tr.states| == |tr.steps| + 1 && !Ends(step)
    ensures Since(Snoc(tr, step, h), d, p)
  {
  }

  lemma {:induction false} Reached(tr: Trace, g: Feed)
    requires Traces(tr, INIT, g)
    ensures Inv(g)
  {
    EveryRunIsSafe(tr.states, tr.steps, |tr.steps|);
  }

  /** The send in progress and the length of the case list, where a loop of it may look. */
  lemma {:induction false} PrefixFits(tr: Trace, g: Feed)
    requires Traces(tr, INIT, g) && g.lock.BySend? && !g.lock.send.pc.Draining?
    ensures 1 <= g.lock.send.active <= |g.cases|
  {
    Reached(tr, g);
  }

  /** The state after the value went to case `i`. */
  ghost function Handing(f: Feed, i: nat, pc: Pc): Feed
    requires Running(f) && i < f.lock.send.active
  {
    var s := f.lock.send;
    Feed(BySend(Sending(pc, s.active - 1, s.nsent + 1, s.delivered + [f.cases[i]])), Deactivate(f.cases, s.active, i),
         f.inbox, f.live, f.waiting, false)
  }

  lemma {:induction false} HandingDelivers(f: Feed, i: nat, pc: Pc)
    requires Inv(f) && Running(f) && 1 <= i < f.lock.send.active
    ensures Handing(f, i, pc) == Deliver(f, i, pc)
  {
    SubAt(f, i);
  }

  /** Where a send goes on after a delivery by the given step. */
  ghost function After(step: Step, i: nat): Pc {
    if step == TryDelivers then Trying(i) else Trying(FIRST_SUB)
  }

  lemma {:induction false} ServeStep(tr: Trace, g: Feed, i: nat, step: Step)
    requires Traces(tr, INIT, g) && Running(g) && 1 <= i < g.lock.send.active
    requires (g.lock.send.pc == Trying(i) && step == TryDelivers) || (g.lock.send.pc == Selecting && step == SelectDelivers(i))
    ensures Traces(Snoc(tr, step, Handing(g, i, After(step, i))), INIT, Handing(g, i, After(step, i)))
  {
    Reached(tr, g);
    HandingDelivers(g, i, After(step, i));
    StepOn(tr, g, step, Handing(g, i, After(step, i)));
  }

  ghost function Moved(s: Sending, step: Step): Pc
    requires s.pc.Trying?
  {
    if step == TryFails then Trying(s.pc.i + 1) else if s.active == FIRST_SUB then Finished else Selecting
  }

  lemma {:induction false} MoveStep(tr: Trace, g: Feed, step: Step)
    requires Traces(tr, INIT, g) && Running(g) && g.lock.send.pc.Trying?
    requires (step == TryFails && g.lock.send.pc.i < g.lock.send.active) || (step == TryEnds && g.lock.send.pc.i >= g.lock.send.active)
    ensures var h := Move(g, Moved(g.lock.send, step)); Traces(Snoc(tr, step, h), INIT, h)
  {
    Reached(tr, g);
    StepOn(tr, g, step, Move(g, Moved(g.lock.send, step)));
  }

  lemma {:induction false} WaitingIsFound(tr: Trace, g: Feed, ch: Chan)
    requires Traces(tr, INIT, g) && ch in g.waiting
    ensures 0 <= Find(g.cases, ch)
  {
    Reached(tr, g);
    WaitingFound(g, ch);
  }

  /** `h` is `g` with the channel's case and its waiting removal gone. */
  ghost predicate Dropped(g: Feed, ch: Chan, h: Feed) {
    && 0 <= Find(g.cases, ch)
    && h.cases == Delete(g.cases, Find(g.cases, ch)) && h.inbox == g.inbox && !h.panicked
    && h.live == g.live - multiset{ch} && h.waiting == g.waiting - multiset{ch}
  }

  lemma {:induction false} DroppedIs(g: Feed, ch: Chan, h: Feed)
    requires Dropped(g, ch, h) && !g.panicked
    ensures h == Drop(g, ch).(lock := h.lock)
  {
  }

  lemma {:induction false} RemoveStep(tr: Trace, g: Feed, ch: Chan, h: Feed)
    requires Traces(tr, INIT, g) && Running(g) && g.lock.send.pc.Selecting? && ch in g.waiting && Dropped(g, ch, h)
    requires h.lock.BySend? && h.lock.send == g.lock.send.(pc := Trying(FIRST_SUB), active := h.lock.send.active)
    requires h.lock.send.active == if Find(g.cases, ch) < g.lock.send.active then g.lock.send.active - 1 else g.lock.send.active
    ensures Traces(Snoc(tr, SelectRemoves(ch), h), INIT, h)
  {
    Reached(tr, g);
    DroppedIs(g, ch, h);
    StepOn(tr, g, SelectRemoves(ch), h);
  }

  lemma {:induction false} DropIdle(tr: Trace, g: Feed, ch: Chan, h: Feed)
    requires Traces(tr, INIT, g) && g.lock.Free? && h.lock.Free? && ch in g.waiting && Dropped(g, ch, h)
    ensures Traces(Snoc(Snoc(tr, RemoveLocks(ch), g.(lock := ByRemove(ch))), RemoveDeletes(ch), h), INIT, h)
  {
    Reached(tr, g);
    var l := g.(lock := ByRemove(ch));
    DroppedIs(l, ch, h);
    StepOn(tr, g, RemoveLocks(ch), l);
    StepOn(Snoc(tr, RemoveLocks(ch), l), l, RemoveDeletes(ch), h);
  }

  /** The run ends with a send that opened at step `d`; its `n` deliveries and the channels removed
      first make up the subscriptions `p`. */
  ghost predicate Served(tr: Trace, d: nat, p: multiset<Chan>, n: nat) {
    && tr.steps != [] && OneSend(tr.states, tr.steps, d, |tr.steps| - 1)
    && var log := Account(tr.states, tr.steps, d, |tr.steps| - 1);
    && n == |Delivered(log, |log|)| && multiset(Delivered(log, |log|)) + Revoked(log, |log|) == p
  }

  lemma {:induction false} SendServed(tr: Trace, d: nat)
    requires tr.steps != [] && OneSend(tr.states, tr.steps, d, |tr.steps| - 1)
    ensures var last := tr.states[|tr.steps| - 1];
            last.lock.BySend? && Served(tr, d, tr.states[d + 1].live, last.lock.send.nsent)
  {
    SendDelivers(tr.states, tr.steps, d, |tr.steps| - 1);
  }

  lemma {:induction false} UnlockStep(tr: Trace, g: Feed, h: Feed, d: nat, p: multiset<Chan>)
    requires Traces(tr, INIT, g) && Since(tr, d, p) && g.lock.BySend? && g.lock.send.pc.Finished? && h == g.(lock := Free)
    ensures Traces(Snoc(tr, SendUnlocks, h), INIT, h)
    ensures Served(Snoc(tr, SendUnlocks, h), d, p, g.lock.send.nsent)
  {
    Reached(tr, g);
    StepOn(tr, g, SendUnlocks, h);
    SendServed(Snoc(tr, SendUnlocks, h), d);
  }

  lemma {:induction false} UnsubscribeStep(tr: Trace, g: Feed, ch: Chan, h: Feed)
    requires Traces(tr, INIT, g) && ch in g.live - g.waiting && h.cases == g.cases && h.lock == g.lock && !h.panicked && !g.panicked
    requires if Find(g.inbox, ch) == -1 then h.inbox == g.inbox && h.live == g.live && h.waiting == g.waiting + multiset{ch}
             else h.inbox == Delete(g.inbox, Find(g.inbox, ch)) && h.live == g.live - multiset{ch} && h.waiting == g.waiting
    ensures Traces(Snoc(tr, Step.Unsubscribe(ch), h), INIT, h)
  {
    assert h == Withdraw(g, ch);
    StepOn(tr, g, Step.Unsubscribe(ch), h);
  }

  /** The case list is the first `len` slots of `data`; `waiting` are the blocked removals. */
  class CaseArray {
    var data: array<Chan>
    var len: nat
    var inbox: seq<Chan>
    var live: multiset<Chan>
    var waiting: multiset<Chan>
    ghost var history: Trace

    ghost function Abs(lock: Lock): Feed
      requires len <= data.Length
      reads this, data
    {
      Feed(lock, data[..len], inbox, live, waiting, false)
    }

    /** The state is where the run so far has led, and nobody holds the lock. */
    ghost predicate Valid()
      reads this, data
    {
      len <= data.Length && Traces(history, INIT, Abs(Free))
    }

    constructor ()
      ensures Valid() && fresh(data) && live == multiset{} && history == Trace([INIT], [])
    {
      data, len := new Chan[1](_ => RemoveSub), 1;
      inbox, live, waiting := [], multiset{}, multiset{};
      history := Trace([INIT], []);
    }

    method Enter(ch: Chan)
      modifies this`inbox, this`live
      ensures inbox == old(inbox) + [ch] && live == old(live) + multiset{ch}
    {
      inbox, live := inbox + [ch], live + multiset{ch};
    }

    method Subscribe(ch: Chan)
      requires Valid() && ch.Sub?
      modifies this`inbox, this`live, this`history
      ensures Valid() && inbox == old(inbox) + [ch] && live == old(live) + multiset{ch}
      ensures history.steps == old(history.steps) + [Step.Subscribe(ch)]
    {
      ghost var was := Abs(Free);
      Enter(ch);
      StepOn(history, was, Step.Subscribe(ch), Abs(Free));
      history := Snoc(history, Step.Subscribe(ch), Abs(Free));
    }

    /** Takes the case from the inbox if it is there; otherwise the removal waits. */
    method Withdraw(ch: Chan) returns (waits: bool)
      modifies this`inbox, this`live, this`waiting
      ensures waits == (ch !in old(inbox))
      ensures if waits then inbox == old(inbox) && live == old(live) && waiting == old(waiting) + multiset{ch}
              else inbox == Delete(old(inbox), Find(old(inbox), ch)) && live == old(live) - multiset{ch} && waiting == old(waiting)
    {
      var index := Find(inbox, ch);
      waits := index == -1;
      if waits {
        waiting := waiting + multiset{ch};
      } else {
        inbox, live := Delete(inbox, index), live - multiset{ch};
      }
    }

    /** The first half of a removal; without a case in the inbox it goes on to wait. */
    method Unsubscribe(ch: Chan) returns (waits: bool)
      requires Valid() && ch in live - waiting
      modifies this`inbox, this`live, this`waiting, this`history
      ensures Valid() && waits == (ch !in old(inbox))
      ensures if waits then inbox == old(inbox) && live == old(live) && waiting == old(waiting) + multiset{ch}
              else live == old(live) - multiset{ch} && multiset(inbox) == multiset(old(inbox)) - multiset{ch} && waiting == old(waiting)
    {
      ghost var was := Abs(Free);
      waits := Withdraw(ch);
      UnsubscribeStep(history, was, ch, Abs(Free));
      history := Snoc(history, Step.Unsubscribe(ch), Abs(Free));
    }

    ghost method RecordRemoval(ch: Chan, was: Feed)
      requires len <= data.Length && Traces(history, INIT, was) && was.lock.Free? && ch in was.waiting && Dropped(was, ch, Abs(Free))
      modifies this`history
      ensures Valid()
    {
      DropIdle(history, was, ch, Abs(Free));
      history := Snoc(Snoc(history, RemoveLocks(ch), was.(lock := ByRemove(ch))), RemoveDeletes(ch), Abs(Free));
    }

    method FindCase(ch: Chan) returns (i: int)
      requires len <= data.Length
      ensures i == Find(data[..len], ch)
    {
      i := 0;
      while i < len
        invariant 0 <= i <= len && ch !in data[..i]
      {
        if data[i] == ch {
          assert data[..i] == data[..len][..i];
          return;
        }
        assert data[..i + 1] == data[..i] + [data[i]];
        i := i + 1;
      }
      i := -1;
    }

    /** Shifts the cases above `i` down by one slot. */
    method DeleteCase(i: nat)
      requires i < len <= data.Length
      modifies this`len, data
      ensures len == old(len) - 1 && len <= data.Length && data[..len] == Delete(old(data[..len]), i)
    {
      ghost var was := data[..];
      var j := i;
      while j < len - 1
        invariant i <= j <= len - 1 && len == old(len)
        invariant forall m | i <= m < j :: data[m] == was[m + 1]
        invariant forall m | 0 <= m < i || j <= m < data.Length :: data[m] == was[m]
      {
        data[j] := data[j + 1];
        j := j + 1;
      }
      len := len - 1;
      assert was[..len + 1] == old(data[..len]);
      assert data[..i] == was[..len + 1][..i] && data[i..len] == was[..len + 1][i + 1..];
      assert data[..len] == data[..i] + data[i..len];
    }

    /** Deletes the case of a waiting removal, which thereby ends. */
    method DropCase(ch: Chan) returns (index: nat)
      requires len <= data.Length && 0 <= Find(data[..len], ch)
      modifies this`len, this`live, this`waiting, data
      ensures index == Find(old(data[..len]), ch) && len == old(len) - 1 && data[..len] == Delete(old(data[..len]), index)
      ensures live == old(live) - multiset{ch} && waiting == old(waiting) - multiset{ch}
    {
      ghost var was := data[..len];
      index := FindCase(ch);
      DeleteCase(index);
      assert data[..len] == Delete(was, index);
      waiting, live := waiting - multiset{ch}, live - multiset{ch};
    }

    /** The second half of a removal when no send is in progress. */
    method RemoveIdle(ch: Chan)
      requires Valid() && ch in waiting
      modifies this`len, this`live, this`waiting, this`history, data
      ensures Valid() && live == old(live) - multiset{ch} && waiting == old(waiting) - multiset{ch}
    {
      ghost var was := Abs(Free);
      WaitingIsFound(history, was, ch);
      var _ := DropCase(ch);
      RecordRemoval(ch, was);
    }

    method DeactivateCase(active: nat, i: nat)
      requires i < active <= len <= data.Length
      modifies data
      ensures data[..len] == Deactivate(old(data[..len]), active, i)
    {
      data[i], data[active - 1] := data[active - 1], data[i];
    }

    /** Appends the inbox, into a larger array when the slots run out. */
    method AppendInbox()
      requires len <= data.Length
      modifies this`len, this`data, this`inbox, data
      ensures data == old(data) || fresh(data)
      ensures len <= data.Length && data[..len] == old(data[..len]) + old(inbox) && inbox == []
    {
      if len + |inbox| > data.Length {
        var grown := new Chan[2 * (len + |inbox|)](_ => RemoveSub);
        forall i | 0 <= i < len { grown[i] := data[i]; }
        data := grown;
      }
      forall i | 0 <= i < |inbox| { data[len + i] := inbox[i]; }
      len, inbox := len + |inbox|, [];
    }

    /** The lock is held as `lock` says, after the run `tr`, in which a send opened at step `d`
        with the subscriptions `p`. */
    ghost predicate OnRun(lock: Lock, d: nat, p: multiset<Chan>, tr: Trace)
      reads this, data
    {
      len <= data.Length && Traces(tr, INIT, Abs(lock)) && Since(tr, d, p)
    }

    /** The value goes to case `i`, which leaves the active prefix. */
    method DeliverTo(active: nat, i: nat, ghost step: Step, ghost s: Sending, ghost d: nat, ghost p: multiset<Chan>, ghost tr: Trace)
      returns (ghost s': Sending, ghost tr': Trace)
      requires OnRun(BySend(s), d, p, tr) && s.active == active && 1 <= i < active <= len
      requires (s.pc == Trying(i) && step == TryDelivers) || (s.pc == Selecting && step == SelectDelivers(i))
      modifies data
      ensures OnRun(BySend(s'), d, p, tr') && s' == Sending(After(step, i), active - 1, s.nsent + 1, s.delivered + [old(data[i])])
    {
      ghost var was := Abs(BySend(s));
      s' := Sending(After(step, i), active - 1, s.nsent + 1, s.delivered + [data[i]]);
      ServeStep(tr, was, i, step);
      DeactivateCase(active, i);
      assert Abs(BySend(s')) == Handing(was, i, s'.pc);
      tr' := Snoc(tr, step, Abs(BySend(s')));
    }

    /** A step of the loop that changes nothing but its position. */
    ghost method Advance(step: Step, s: Sending, d: nat, p: multiset<Chan>, tr: Trace) returns (s': Sending, tr': Trace)
      requires OnRun(BySend(s), d, p, tr) && s.pc.Trying? && s.active <= len
      requires (step == TryFails && s.pc.i < s.active) || (step == TryEnds && s.pc.i >= s.active)
      ensures OnRun(BySend(s'), d, p, tr') && s' == s.(pc := Moved(s, step))
    {
      s' := s.(pc := Moved(s, step));
      MoveStep(tr, Abs(BySend(s)), step);
      tr' := Snoc(tr, step, Abs(BySend(s')));
    }

    method SubscribeMeanwhile(ch: Chan, ghost s: Sending, ghost d: nat, ghost p: multiset<Chan>, ghost tr: Trace) returns (ghost tr': Trace)
      requires OnRun(BySend(s), d, p, tr) && ch.Sub?
      modifies this`inbox, this`live
      ensures OnRun(BySend(s), d, p, tr')
    {
      ghost var was := Abs(BySend(s));
      Enter(ch);
      StepOn(tr, was, Step.Subscribe(ch), Abs(BySend(s)));
      SinceOn(tr, d, p, Step.Subscribe(ch), Abs(BySend(s)));
      tr' := Snoc(tr, Step.Subscribe(ch), Abs(BySend(s)));
    }

    method UnsubscribeMeanwhile(ch: Chan, ghost s: Sending, ghost d: nat, ghost p: multiset<Chan>, ghost tr: Trace) returns (ghost tr': Trace)
      requires OnRun(BySend(s), d, p, tr) && ch in live - waiting
      modifies this`inbox, this`live, this`waiting
      ensures OnRun(BySend(s), d, p, tr')
    {
      ghost var was := Abs(BySend(s));
      var _ := Withdraw(ch);
      UnsubscribeStep(tr, was, ch, Abs(BySend(s)));
      SinceOn(tr, d, p, Step.Unsubscribe(ch), Abs(BySend(s)));
      tr' := Snoc(tr, Step.Unsubscribe(ch), Abs(BySend(s)));
    }

    /** Others subscribe and unsubscribe while a send runs. */
    method Meanwhile(ghost s: Sending, ghost d: nat, ghost p: multiset<Chan>, ghost tr0: Trace) returns (ghost tr: Trace)
      requires OnRun(BySend(s), d, p, tr0)
      modifies this`inbox, this`live, this`waiting
      ensures OnRun(BySend(s), d, p, tr)
    {
      tr := tr0;
      var n: nat :| 0 <= n;
      for i := 0 to n
        invariant OnRun(BySend(s), d, p, tr)
      {
        if * {
          var id: int := *;
          tr := SubscribeMeanwhile(Sub(id), s, d, p, tr);
        } else if live - waiting != multiset{} {
          var ch: Chan :| ch in live - waiting;
          tr := UnsubscribeMeanwhile(ch, s, d, p, tr);
        }
      }
    }

    /** One pass of sends that do not block. `s` is the send in progress, `tr` its run so far. */
    method TryAll(active0: nat, nsent0: nat, ghost s0: Sending, ghost d: nat, ghost p: multiset<Chan>, ghost tr0: Trace)
      returns (active: nat, nsent: nat, ghost s: Sending, ghost tr: Trace)
      requires OnRun(BySend(s0), d, p, tr0) && s0 == Sending(Trying(FIRST_SUB), active0, nsent0, s0.delivered)
      modifies this`inbox, this`live, this`waiting, data
      ensures OnRun(BySend(s), d, p, tr) && 1 <= active <= len && active <= active0
      ensures s == Sending(if active == FIRST_SUB then Finished else Selecting, active, nsent, s.delivered)
    {
      active, nsent, s, tr := active0, nsent0, s0, tr0;
      PrefixFits(tr, Abs(BySend(s)));
      var i: nat := FIRST_SUB;
      while i < active
        invariant s == Sending(Trying(i), active, nsent, s.delivered) && 1 <= i <= active <= len && active <= active0
        invariant OnRun(BySend(s), d, p, tr)
        decreases active - i
      {
        tr := Meanwhile(s, d, p, tr);
        if * {
          s, tr := DeliverTo(active, i, TryDelivers, s, d, p, tr);
          active, nsent := active - 1, nsent + 1;
        } else {
          s, tr := Advance(TryFails, s, d, p, tr);
          i := i + 1;
        }
      }
      s, tr := Advance(TryEnds, s, d, p, tr);
    }

    /** Serves a removal received while the send blocks; the prefix shrinks if the case was in it. */
    method RemoveWhileSending(ch: Chan, active: nat, ghost s: Sending, ghost d: nat, ghost p: multiset<Chan>, ghost tr: Trace)
      returns (active': nat, ghost s': Sending, ghost tr': Trace)
      requires OnRun(BySend(s), d, p, tr) && s.pc == Selecting && s.active == active <= len && ch in waiting
      modifies this`len, this`live, this`waiting, data
      ensures OnRun(BySend(s'), d, p, tr') && s' == s.(pc := Trying(FIRST_SUB), active := active')
      ensures len == old(len) - 1 && active' <= active
    {
      ghost var was := Abs(BySend(s));
      assert Running(was) && 0 <= Find(was.cases, ch) by {
        WaitingIsFound(tr, was, ch);
      }
      var index := DropCase(ch);
      active' := if index < active then active - 1 else active;
      s' := s.(pc := Trying(FIRST_SUB), active := active');
      RemoveStep(tr, was, ch, Abs(BySend(s')));
      SinceOn(tr, d, p, SelectRemoves(ch), Abs(BySend(s')));
      tr' := Snoc(tr, SelectRemoves(ch), Abs(BySend(s')));
    }

    /** One blocking select: a removal is served or a value delivered, whichever comes. */
    method SelectOne(active0: nat, nsent0: nat, ghost s0: Sending, ghost d: nat, ghost p: multiset<Chan>, ghost tr0: Trace)
      returns (active: nat, nsent: nat, ghost s: Sending, ghost tr: Trace)
      requires OnRun(BySend(s0), d, p, tr0) && s0 == Sending(Selecting, active0, nsent0, s0.delivered) && 1 < active0 <= len
      modifies this`len, this`inbox, this`live, this`waiting, data
      ensures OnRun(BySend(s), d, p, tr) && s == Sending(Trying(FIRST_SUB), active, nsent, s.delivered)
      ensures len + active < old(len) + active0
    {
      active, nsent, s := active0, nsent0, s0;
      tr := Meanwhile(s, d, p, tr0);
      var removal: bool := *;
      if removal && waiting != multiset{} {
        var ch: Chan :| ch in waiting;
        active, s, tr := RemoveWhileSending(ch, active, s, d, p, tr);
      } else {
        var chosen: nat :| 1 <= chosen < active;
        s, tr := DeliverTo(active, chosen, SelectDelivers(chosen), s, d, p, tr);
        active, nsent := active - 1, nsent + 1;
      }
    }

    /** The loop of a send: passes that do not block, then a blocking select over the rest, until
        only the remove case is left. Which channels are ready is up to their receivers; others may
        subscribe and unsubscribe before every step. */
    method SendLoop(active0: nat, ghost s0: Sending, ghost d: nat, ghost p: multiset<Chan>, ghost tr0: Trace)
      returns (nsent: nat, ghost s: Sending, ghost tr: Trace)
      requires OnRun(BySend(s0), d, p, tr0) && s0 == Sending(Trying(FIRST_SUB), active0, 0, s0.delivered)
      modifies this`len, this`inbox, this`live, this`waiting, data
      ensures OnRun(BySend(s), d, p, tr) && s.pc == Finished && s.nsent == nsent
    {
      var active;
      active, nsent, s, tr := TryAll(active0, 0, s0, d, p, tr0);
      while active != FIRST_SUB
        invariant OnRun(BySend(s), d, p, tr) && 1 <= active <= len
        invariant s == Sending(if active == FIRST_SUB then Finished else Selecting, active, nsent, s.delivered)
        decreases len + active
      {
        active, nsent, s, tr := SelectOne(active, nsent, s, d, p, tr);
        active, nsent, s, tr := TryAll(active, nsent, s, d, p, tr);
      }
    }

    /** Takes the lock and moves the inbox to the case list. */
    method Open(ghost d: nat, ghost p: multiset<Chan>) returns (ghost s: Sending, ghost tr: Trace)
      requires Valid() && d == |history.steps| + 1 && p == live
      modifies this`len, this`data, this`inbox, data
      ensures data == old(data) || fresh(data)
      ensures inbox == [] && OnRun(BySend(s), d, p, tr)
      ensures s == Sending(Trying(FIRST_SUB), len, 0, [])
    {
      ghost var locked := Abs(BySend(Sending(Draining, 0, 0, [])));
      StepOn(history, Abs(Free), SendLocks, locked);
      tr := Snoc(history, SendLocks, locked);
      StepOn(tr, locked, SendDrains, Drain(locked));
      AppendInbox();
      s := Sending(Trying(FIRST_SUB), len, 0, []);
      assert Abs(BySend(s)) == Drain(locked);
      tr := Snoc(tr, SendDrains, Abs(BySend(s)));
    }

    /** Releases the lock. */
    ghost method Close(s: Sending, d: nat, p: multiset<Chan>, tr: Trace)
      requires OnRun(BySend(s), d, p, tr) && s.pc == Finished
      modifies this`history
      ensures Valid() && Served(history, d, p, s.nsent)
    {
      UnlockStep(tr, Abs(BySend(s)), Abs(Free), d, p);
      history := Snoc(tr, SendUnlocks, Abs(Free));
    }

    /** The rest of a send after it has drained the inbox. */
    method Finish(active: nat, ghost s: Sending, ghost d: nat, ghost p: multiset<Chan>, ghost tr: Trace)
      returns (nsent: nat)
      requires OnRun(BySend(s), d, p, tr) && s == Sending(Trying(FIRST_SUB), active, 0, s.delivered)
      modifies this`len, this`inbox, this`live, this`waiting, this`history, data
      ensures Valid() && Served(history, d, p, nsent)
    {
      ghost var s', tr';
      nsent, s', tr' := SendLoop(active, s, d, p, tr);
      Close(s', d, p, tr');
    }

    /** Delivers a value. The result counts the deliveries, and these are, with the channels whose
        removal came first, exactly the subscriptions there were. */
    method Send() returns (nsent: nat)
      requires Valid()
      modifies this, data
      ensures data == old(data) || fresh(data)
      ensures Valid() && Served(history, |old(history.steps)| + 1, old(live), nsent)
    {
      ghost var d: nat, p := |history.steps| + 1, live;
      ghost var s, tr := Open(d, p);
      nsent := Finish(len, s, d, p, tr);
    }
  }
}
