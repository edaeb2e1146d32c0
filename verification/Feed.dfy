/** Runs of an arbitrary step relation. */
module Runs {

  /** Step `i` leads from state `i` to state `i + 1`. */
  ghost predicate Path<S(!new), A(!new)>(next: (S, A, S) -> bool, states: seq<S>, steps: seq<A>) {
    && |states| == |steps| + 1
    && forall i | 0 <= i < |steps| :: next(states[i], steps[i], states[i + 1])
  }

  ghost predicate Keeps<S(!new), A(!new)>(next: (S, A, S) -> bool, inv: S -> bool) {
    forall s, a, t | inv(s) && next(s, a, t) :: inv(t)
  }

  lemma {:induction false} PathKeeps<S(!new), A(!new)>(next: (S, A, S) -> bool, inv: S -> bool, states: seq<S>, steps: seq<A>, n: nat)
    requires Path(next, states, steps) && Keeps(next, inv) && inv(states[0]) && n <= |steps|
    ensures inv(states[n])
  {
    if n > 0 {
      PathKeeps(next, inv, states, steps, n - 1);
      assert next(states[n - 1], steps[n - 1], states[n]);
    }
  }

  /** Step `d` opens a stretch that no step before the `k`-th ends. */
  ghost predicate Stretch<A(!new)>(steps: seq<A>, opens: A -> bool, ends: A -> bool, d: nat, k: nat) {
    d < k <= |steps| && opens(steps[d]) && forall j | d < j < k :: !ends(steps[j])
  }

  ghost predicate Continues<S(!new), A(!new)>(next: (S, A, S) -> bool, inv: S -> bool, running: S -> bool, opens: A -> bool, ends: A -> bool) {
    forall s, a, t | inv(s) && next(s, a, t) && (opens(a) || (running(s) && !ends(a))) :: running(t)
  }

  lemma {:induction false} RunsOn<S(!new), A(!new)>(next: (S, A, S) -> bool, inv: S -> bool, running: S -> bool, opens: A -> bool, ends: A -> bool,
                                                    states: seq<S>, steps: seq<A>, d: nat, k: nat, j: nat)
    requires Keeps(next, inv) && Continues(next, inv, running, opens, ends)
    requires Path(next, states, steps) && inv(states[0]) && Stretch(steps, opens, ends, d, k) && d < j <= k
    ensures running(states[j])
    decreases j
  {
    PathKeeps(next, inv, states, steps, j - 1);
    assert next(states[j - 1], steps[j - 1], states[j]);
    if j > d + 1 {
      RunsOn(next, inv, running, opens, ends, states, steps, d, k, j - 1);
    }
  }

  ghost function Count<A(!new)>(works: A -> bool, steps: seq<A>, lo: nat, hi: nat): nat
    requires lo <= hi <= |steps|
  {
    if lo == hi then 0 else Count(works, steps, lo, hi - 1) + if works(steps[hi - 1]) then 1 else 0
  }

  /** Steps that burn fuel are at most as many as the fuel at the start. */
  lemma {:induction false} FuelBounds<S(!new), A(!new)>(next: (S, A, S) -> bool, inv: S -> bool, running: S -> bool, opens: A -> bool, ends: A -> bool,
                                                        fuel: S -> nat, works: A -> bool, states: seq<S>, steps: seq<A>, d: nat, k: nat, j: nat)
    requires Keeps(next, inv) && Continues(next, inv, running, opens, ends)
    requires forall s, a, t | inv(s) && next(s, a, t) && running(s) && !ends(a) :: fuel(t) + (if works(a) then 1 else 0) <= fuel(s)
    requires Path(next, states, steps) && inv(states[0]) && Stretch(steps, opens, ends, d, k) && d < j <= k
    ensures Count(works, steps, d + 1, j) + fuel(states[j]) <= fuel(states[d + 1])
    decreases j
  {
    if j > d + 1 {
      PathKeeps(next, inv, states, steps, j - 1);
      RunsOn(next, inv, running, opens, ends, states, steps, d, k, j - 1);
      FuelBounds(next, inv, running, opens, ends, fuel, works, states, steps, d, k, j - 1);
      assert next(states[j - 1], steps[j - 1], states[j]);
    }
  }

  lemma {:induction false} PathExtends<S(!new), A(!new)>(next: (S, A, S) -> bool, states: seq<S>, steps: seq<A>, a: A, t: S)
    requires Path(next, states, steps) && next(states[|steps|], a, t)
    ensures Path(next, states + [t], steps + [a])
  {
  }
}

/** The account of one send of a feed, step by step. */
module Ledgers {
  import opened Runs

  /** A channel of a select case: the feed's own remove channel, or a subscriber's. */
  datatype Chan = RemoveSub | Sub(id: int)

  /** One step: the channels still to be served and the count of deliveries before it, the channel
      it hands the value to, the channel it strikes off unserved, and the removal it was asked for. */
  datatype Entry = Entry(active: multiset<Chan>, count: nat, handed: seq<Chan>, revoked: multiset<Chan>, asked: seq<Chan>)

  /** A removal asked for strikes the channel off exactly if it is still to be served. */
  ghost predicate Sound(e: Entry) {
    && (forall ch | ch in e.revoked :: ch in e.asked)
    && (forall ch | ch in e.asked && ch in e.active :: ch in e.revoked)
  }

  ghost predicate Leads(e: Entry, next: Entry) {
    && next.active + multiset(e.handed) + e.revoked == e.active
    && next.count == e.count + |e.handed|
  }

  ghost predicate Balanced(log: seq<Entry>) {
    && (forall i | 0 <= i < |log| :: Sound(log[i]))
    && (forall i | 0 <= i < |log| - 1 :: Leads(log[i], log[i + 1]))
  }

  /** The deliveries of the first `n` steps, in order. */
  ghost function Delivered(log: seq<Entry>, n: nat): seq<Chan>
    requires n <= |log|
  {
    if n == 0 then [] else Delivered(log, n - 1) + log[n - 1].handed
  }

  ghost function Revoked(log: seq<Entry>, n: nat): multiset<Chan>
    requires n <= |log|
  {
    if n == 0 then multiset{} else Revoked(log, n - 1) + log[n - 1].revoked
  }

  /** Nothing is delivered or struck off twice, and nothing is lost. */
  lemma {:induction false} Conserves(log: seq<Entry>, n: nat)
    requires Balanced(log) && n < |log|
    ensures log[n].active + multiset(Delivered(log, n)) + Revoked(log, n) == log[0].active
    ensures log[n].count == log[0].count + |Delivered(log, n)|
  {
    if n > 0 {
      Conserves(log, n - 1);
      assert Leads(log[n - 1], log[n]);
      assert multiset(Delivered(log, n)) == multiset(Delivered(log, n - 1)) + multiset(log[n - 1].handed);
    }
  }

  /** The whole account, when its last line does nothing. */
  lemma {:induction false} ConservesAll(log: seq<Entry>)
    requires Balanced(log) && log != [] && log[|log| - 1].handed == [] && log[|log| - 1].revoked == multiset{}
    ensures var last := log[|log| - 1];
            && last.active + multiset(Delivered(log, |log|)) + Revoked(log, |log|) == log[0].active
            && last.count == log[0].count + |Delivered(log, |log|)|
  {
    Conserves(log, |log| - 1);
    assert Delivered(log, |log|) == Delivered(log, |log| - 1) + [];
    assert Revoked(log, |log|) == Revoked(log, |log| - 1) + multiset{};
  }

  /** The channel's removal came before the value reached the channel. */
  ghost predicate RemovedFirst(log: seq<Entry>, n: nat, ch: Chan)
    requires n <= |log|
  {
    exists j | 0 <= j < n :: ch in log[j].asked && ch !in Delivered(log, j)
  }

  lemma {:induction false} RevokedAt(log: seq<Entry>, n: nat, ch: Chan) returns (j: nat)
    requires Balanced(log) && n <= |log| && ch in Revoked(log, n)
    ensures j < n && ch in log[j].revoked
  {
    if ch in log[n - 1].revoked {
      j := n - 1;
    } else {
      j := RevokedAt(log, n - 1, ch);
    }
  }

  lemma {:induction false} RevokedGrows(log: seq<Entry>, j: nat, n: nat)
    requires j <= n <= |log|
    ensures Revoked(log, j) <= Revoked(log, n)
  {
    if j < n {
      RevokedGrows(log, j, n - 1);
    }
  }

  /** Struck off at line `j`, a channel listed once had not been served before it. */
  lemma {:induction false} StruckUnserved(log: seq<Entry>, j: nat, ch: Chan)
    requires Balanced(log) && j < |log| - 1 && log[0].active[ch] == 1 && ch in log[j].revoked
    ensures ch in log[j].asked && ch !in Delivered(log, j)
  {
    Conserves(log, j);
    assert Leads(log[j], log[j + 1]) && Sound(log[j]);
    assert multiset(Delivered(log, j))[ch] == 0;
  }

  /** Asked for at line `j` and not served before, a channel listed once is struck off by then. */
  lemma {:induction false} AskedIsStruck(log: seq<Entry>, j: nat, ch: Chan)
    requires Balanced(log) && j < |log| && log[0].active[ch] == 1 && ch in log[j].asked && ch !in Delivered(log, j)
    ensures ch in Revoked(log, j + 1)
  {
    Conserves(log, j);
    assert Sound(log[j]);
    assert multiset(Delivered(log, j))[ch] == 0;
    assert (log[j].active + Revoked(log, j))[ch] == 1;
  }

  lemma {:induction false} RevokedIffRemovedFirst(log: seq<Entry>, n: nat, ch: Chan)
    requires Balanced(log) && n < |log| && log[0].active[ch] == 1
    ensures ch in Revoked(log, n) <==> RemovedFirst(log, n, ch)
  {
    if ch in Revoked(log, n) {
      var j := RevokedAt(log, n, ch);
      StruckUnserved(log, j, ch);
    }
    if RemovedFirst(log, n, ch) {
      var j :| 0 <= j < n && ch in log[j].asked && ch !in Delivered(log, j);
      AskedIsStruck(log, j, ch);
      RevokedGrows(log, j + 1, n);
    }
  }

  /** In a closed account a channel listed once is served exactly once, unless it was removed first. */
  lemma {:induction false} OnceOrRemoved(log: seq<Entry>, ch: Chan)
    requires Balanced(log) && log != [] && log[0].active[ch] == 1
    requires var last := log[|log| - 1];
             last.active == last.revoked == multiset{} && last.handed == last.asked == []
    ensures multiset(Delivered(log, |log|))[ch] == if RemovedFirst(log, |log|, ch) then 0 else 1
  {
    ConservesAll(log);
    RevokedIffRemovedFirst(log, |log| - 1, ch);
    assert Revoked(log, |log|) == Revoked(log, |log| - 1) + multiset{};
    assert RemovedFirst(log, |log|, ch) <==> RemovedFirst(log, |log| - 1, ch);
    assert (multiset(Delivered(log, |log|)) + Revoked(log, |log|))[ch] == 1;
  }

  /** The account of the steps between step `d` and state `k`, closed with a step that does nothing. */
  ghost function Log<S(!new), A(!new)>(entry: (S, A) -> Entry, rest: A, states: seq<S>, steps: seq<A>, d: nat, k: nat): (log: seq<Entry>)
    requires |states| == |steps| + 1 && d < k <= |steps|
    ensures |log| == k - d && log[k - d - 1] == entry(states[k], rest)
    ensures forall i | 0 <= i < k - d - 1 :: log[i] == entry(states[d + 1 + i], steps[d + 1 + i])
  {
    seq(k - d, i requires 0 <= i < k - d => entry(states[d + 1 + i], if i < k - d - 1 then steps[d + 1 + i] else rest))
  }

  /** While a send runs, every step of anyone is a balanced line of its account. */
  ghost predicate Accountable<S(!new), A(!new)>(next: (S, A, S) -> bool, inv: S -> bool, running: S -> bool,
                                                entry: (S, A) -> Entry, ends: A -> bool) {
    forall s, a, t, b | inv(s) && next(s, a, t) && running(s) && !ends(a) :: Leads(entry(s, a), entry(t, b))
  }

  lemma {:induction false} LineBalanced<S(!new), A(!new)>(next: (S, A, S) -> bool, inv: S -> bool, running: S -> bool,
                                                          entry: (S, A) -> Entry, opens: A -> bool, ends: A -> bool,
                                                          states: seq<S>, steps: seq<A>, d: nat, k: nat, j: nat, b: A)
    requires Accountable(next, inv, running, entry, ends) && Keeps(next, inv) && Continues(next, inv, running, opens, ends)
    requires Path(next, states, steps) && inv(states[0]) && Stretch(steps, opens, ends, d, k) && d < j < k
    ensures Leads(entry(states[j], steps[j]), entry(states[j + 1], b))
  {
    PathKeeps(next, inv, states, steps, j);
    RunsOn(next, inv, running, opens, ends, states, steps, d, k, j);
    assert next(states[j], steps[j], states[j + 1]);
  }

  lemma {:induction false} LineOfLog<S(!new), A(!new)>(next: (S, A, S) -> bool, inv: S -> bool, running: S -> bool,
                                                       entry: (S, A) -> Entry, rest: A, opens: A -> bool, ends: A -> bool,
                                                       states: seq<S>, steps: seq<A>, d: nat, k: nat, i: nat)
    requires Accountable(next, inv, running, entry, ends) && Keeps(next, inv) && Continues(next, inv, running, opens, ends)
    requires Path(next, states, steps) && inv(states[0]) && Stretch(steps, opens, ends, d, k) && i < k - d - 1
    ensures var log := Log(entry, rest, states, steps, d, k); Leads(log[i], log[i + 1])
  {
    var log, b := Log(entry, rest, states, steps, d, k), if i < k - d - 2 then steps[d + 2 + i] else rest;
    LineBalanced(next, inv, running, entry, opens, ends, states, steps, d, k, d + 1 + i, b);
    assert log[i] == entry(states[d + 1 + i], steps[d + 1 + i]);
    assert log[i + 1] == entry(states[d + 2 + i], b);
  }

  lemma {:induction false} LogSound<S(!new), A(!new)>(entry: (S, A) -> Entry, rest: A, states: seq<S>, steps: seq<A>, d: nat, k: nat)
    requires forall s, a :: Sound(entry(s, a))
    requires |states| == |steps| + 1 && d < k <= |steps|
    ensures var log := Log(entry, rest, states, steps, d, k);
            forall i | 0 <= i < |log| :: Sound(log[i])
  {
  }

  lemma {:induction false} LogBalanced<S(!new), A(!new)>(next: (S, A, S) -> bool, inv: S -> bool, running: S -> bool,
                                                         entry: (S, A) -> Entry, rest: A, opens: A -> bool, ends: A -> bool,
                                                         states: seq<S>, steps: seq<A>, d: nat, k: nat)
    requires Accountable(next, inv, running, entry, ends) && forall s, a :: Sound(entry(s, a))
    requires Keeps(next, inv) && Continues(next, inv, running, opens, ends)
    requires Path(next, states, steps) && inv(states[0]) && Stretch(steps, opens, ends, d, k)
    ensures Balanced(Log(entry, rest, states, steps, d, k))
  {
    var log := Log(entry, rest, states, steps, d, k);
    forall i | 0 <= i < |log| - 1 ensures Leads(log[i], log[i + 1]) {
      LineOfLog(next, inv, running, entry, rest, opens, ends, states, steps, d, k, i);
    }
    LogSound(entry, rest, states, steps, d, k);
  }
}

/** The one-to-many event feed: a send lock, an inbox and a list of select cases that a send
    works through in place while subscriptions come and go. Feed and FeedOf share this protocol. */
module Feeds {
  import opened Common
  import opened Runs
  import opened Ledgers

  /** Slot 0 of the case list is the remove channel; subscribers start here. */
  const FIRST_SUB: nat := 1

  // ---- Case lists -----------------------------------------------------------------------

  /** The first case of the channel, or -1. */
  function Find(cs: seq<Chan>, ch: Chan): (i: int)
    ensures -1 <= i < |cs|
    ensures i >= 0 ==> cs[i] == ch && ch !in cs[..i]
    ensures i == -1 <==> ch !in cs
  {
    if cs == [] then -1
    else if cs[0] == ch then 0
    else
      var j := Find(cs[1..], ch);
      assert cs == [cs[0]] + cs[1..];
      if j == -1 then -1
      else
        assert cs[..j + 1] == [cs[0]] + cs[1..][..j];
        j + 1
  }

  function Delete(cs: seq<Chan>, i: nat): (r: seq<Chan>)
    requires i < |cs|
    ensures multiset(r) == multiset(cs) - multiset{cs[i]}
  {
    assert cs == cs[..i] + [cs[i]] + cs[i + 1..];
    cs[..i] + cs[i + 1..]
  }

  /** Case `i` swapped with the last of the first `active` cases. */
  function Deactivate(cs: seq<Chan>, active: nat, i: nat): (r: seq<Chan>)
    requires i < active <= |cs|
    ensures |r| == |cs| && multiset(r) == multiset(cs)
    ensures r[active - 1] == cs[i] && r[active..] == cs[active..]
    ensures forall j | 0 <= j < active - 1 :: r[j] == if j == i then cs[active - 1] else cs[j]
  {
    cs[i := cs[active - 1]][active - 1 := cs[i]]
  }

  /** The subscriber cases. */
  ghost function Subs(cs: seq<Chan>): multiset<Chan>
    requires cs != []
  {
    multiset(cs[FIRST_SUB..])
  }

  lemma {:induction false} FirstAndSubs(cs: seq<Chan>)
    requires cs != []
    ensures multiset(cs) == multiset{cs[0]} + Subs(cs)
  {
    assert cs == [cs[0]] + cs[1..];
  }

  lemma {:induction false} DeactivateKeepsSubs(cs: seq<Chan>, active: nat, i: nat)
    requires 1 <= i < active <= |cs|
    ensures var r := Deactivate(cs, active, i);
            r[0] == cs[0] && Subs(r) == Subs(cs)
  {
    assert Deactivate(cs, active, i)[1..] == Deactivate(cs[1..], active - 1, i - 1);
  }

  lemma {:induction false} DeleteDropsSub(cs: seq<Chan>, i: nat)
    requires 1 <= i < |cs|
    ensures Delete(cs, i)[0] == cs[0] && Subs(Delete(cs, i)) == Subs(cs) - multiset{cs[i]}
  {
    assert Delete(cs, i)[1..] == Delete(cs[1..], i - 1);
  }

  // ---- The protocol -----------------------------------------------------------------------

  datatype Pc = Draining | Trying(i: nat) | Selecting | Finished

  /** A send that holds the lock. `active` is the length of its prefix of the case list;
      `delivered` lists the channels its value went to so far. */
  datatype Sending = Sending(pc: Pc, active: nat, nsent: nat, delivered: seq<Chan>)

  datatype Lock = Free | BySend(send: Sending) | ByRemove(ch: Chan)

  /** `live` are the subscriptions not removed yet, `waiting` those whose removal found nothing in
      the inbox and now waits for either the running send or the lock. */
  datatype Feed = Feed(lock: Lock, cases: seq<Chan>, inbox: seq<Chan>,
                       live: multiset<Chan>, waiting: multiset<Chan>, panicked: bool)

  const INIT := Feed(Free, [RemoveSub], [], multiset{}, multiset{}, false)

  /** The atomic steps of the goroutines using a feed. */
  datatype Step =
    | Subscribe(ch: Chan)
    | Unsubscribe(ch: Chan)
    | RemoveLocks(ch: Chan)
    | RemoveDeletes(ch: Chan)
    | SendLocks
    | SendDrains
    | TryDelivers
    | TryFails
    | TryEnds
    | SelectDelivers(k: nat)
    | SelectRemoves(ch: Chan)
    | SendUnlocks

  /** The send in progress has drained the inbox and its prefix fits the case list. */
  ghost predicate Running(f: Feed) {
    f.lock.BySend? && f.lock.send.active <= |f.cases|
  }

  /** A send of the current value to case `i` succeeds; the case leaves the active prefix. */
  ghost function Deliver(f: Feed, i: nat, pc: Pc): Feed
    requires Running(f) && i < f.lock.send.active
  {
    var s := f.lock.send;
    if f.cases[i] == RemoveSub then f.(panicked := true) else
      f.(cases := Deactivate(f.cases, s.active, i),
         lock := BySend(Sending(pc, s.active - 1, s.nsent + 1, s.delivered + [f.cases[i]])))
  }

  /** The first half of a removal: the inbox is searched under its mutex. */
  ghost function Withdraw(f: Feed, ch: Chan): Feed {
    var i := Find(f.inbox, ch);
    if i != -1 then f.(inbox := Delete(f.inbox, i), live := f.live - multiset{ch})
    else f.(waiting := f.waiting + multiset{ch})
  }

  /** Deletes the channel's case; deleting at index -1 panics. */
  ghost function Drop(f: Feed, ch: Chan): Feed {
    var i := Find(f.cases, ch);
    if i == -1 then f.(panicked := true)
    else f.(cases := Delete(f.cases, i), waiting := f.waiting - multiset{ch}, live := f.live - multiset{ch})
  }

  /** What a send does with a channel it receives on the remove channel. */
  ghost function Interrupt(f: Feed, ch: Chan): Feed
    requires Running(f)
  {
    var i, s := Find(f.cases, ch), f.lock.send;
    Drop(f, ch).(lock := BySend(s.(pc := Trying(FIRST_SUB), active := if 0 <= i < s.active then s.active - 1 else s.active)))
  }

  ghost function Drain(f: Feed): Feed {
    var cs := f.cases + f.inbox;
    f.(cases := cs, inbox := [], lock := BySend(Sending(Trying(FIRST_SUB), |cs|, 0, [])))
  }

  ghost function Move(f: Feed, pc: Pc): Feed
    requires f.lock.BySend?
  {
    f.(lock := BySend(f.lock.send.(pc := pc)))
  }

  ghost predicate Enabled(f: Feed, step: Step) {
    && !f.panicked
    && match step
       case Subscribe(ch) => ch.Sub?
       case Unsubscribe(ch) => ch in f.live - f.waiting
       case RemoveLocks(ch) => f.lock.Free? && ch in f.waiting
       case RemoveDeletes(ch) => f.lock == ByRemove(ch)
       case SendLocks => f.lock.Free?
       case SendDrains => f.lock.BySend? && f.lock.send.pc.Draining?
       case TryDelivers => Running(f) && f.lock.send.pc.Trying? && f.lock.send.pc.i < f.lock.send.active
       case TryFails => Running(f) && f.lock.send.pc.Trying? && f.lock.send.pc.i < f.lock.send.active
       case TryEnds => Running(f) && f.lock.send.pc.Trying? && f.lock.send.pc.i >= f.lock.send.active
       case SelectDelivers(k) => Running(f) && f.lock.send.pc.Selecting? && 0 < k < f.lock.send.active
       case SelectRemoves(ch) => Running(f) && f.lock.send.pc.Selecting? && ch in f.waiting
       case SendUnlocks => f.lock.BySend? && f.lock.send.pc.Finished?
  }

  ghost function Next(f: Feed, step: Step): Feed
    requires Enabled(f, step)
  {
    match step
    case Subscribe(ch) => f.(inbox := f.inbox + [ch], live := f.live + multiset{ch})
    case Unsubscribe(ch) => Withdraw(f, ch)
    case RemoveLocks(ch) => f.(lock := ByRemove(ch))
    case RemoveDeletes(ch) => Drop(f, ch).(lock := Free)
    case SendLocks => f.(lock := BySend(Sending(Draining, 0, 0, [])))
    case SendDrains => Drain(f)
    case TryDelivers => Deliver(f, f.lock.send.pc.i, f.lock.send.pc)
    case TryFails => Move(f, Trying(f.lock.send.pc.i + 1))
    case TryEnds => Move(f, if f.lock.send.active == FIRST_SUB then Finished else Selecting)
    case SelectDelivers(k) => Deliver(f, k, Trying(FIRST_SUB))
    case SelectRemoves(ch) => Interrupt(f, ch)
    case SendUnlocks => f.(lock := Free)
  }

  // ---- What every reachable state satisfies --------------------------------------------------

  /** Slot 0 is the remove channel and no other slot is; every live subscription is in exactly one
      of the two lists; every removal that waits will find its case. */
  ghost predicate Listed(f: Feed) {
    && f.cases != [] && f.cases[0] == RemoveSub && RemoveSub !in f.live
    && Subs(f.cases) + multiset(f.inbox) == f.live
    && f.waiting <= Subs(f.cases)
  }

  /** The send's prefix lies within the case list and always holds slot 0. */
  ghost predicate Prefixed(cs: seq<Chan>, s: Sending) {
    && 1 <= s.active <= |cs|
    && (s.pc.Trying? ==> 1 <= s.pc.i <= s.active)
    && (s.pc.Selecting? ==> s.active > 1)
    && (s.pc.Finished? ==> s.active == 1)
    && s.nsent == |s.delivered|
  }

  ghost predicate Inv(f: Feed) {
    && !f.panicked
    && Listed(f)
    && (f.lock.ByRemove? ==> f.lock.ch in f.waiting)
    && (f.lock.BySend? && !f.lock.send.pc.Draining? ==> Prefixed(f.cases, f.lock.send))
  }

  lemma {:induction false} SubAt(f: Feed, i: nat)
    requires Listed(f) && 1 <= i < |f.cases|
    ensures f.cases[i] in f.live && f.cases[i] != RemoveSub
  {
    assert f.cases[1..][i - 1] == f.cases[i];
    assert f.cases[i] in Subs(f.cases);
  }

  lemma {:induction false} WaitingFound(f: Feed, ch: Chan)
    requires Listed(f) && ch in f.waiting
    ensures 1 <= Find(f.cases, ch)
  {
    FirstAndSubs(f.cases);
    assert ch in Subs(f.cases);
    assert ch in multiset(f.cases);
  }

  lemma {:induction false} DeliverKeepsListed(f: Feed, i: nat, pc: Pc)
    requires Listed(f) && Running(f) && 1 <= i < f.lock.send.active
    ensures Listed(Deliver(f, i, pc)) && f.cases[i] != RemoveSub
  {
    SubAt(f, i);
    DeactivateKeepsSubs(f.cases, f.lock.send.active, i);
  }

  lemma {:induction false} DeliverKeepsInv(f: Feed, i: nat, pc: Pc)
    requires Inv(f) && f.lock.BySend? && !f.lock.send.pc.Draining?
    requires 1 <= i < f.lock.send.active && pc.Trying? && 1 <= pc.i < f.lock.send.active
    ensures Inv(Deliver(f, i, pc))
  {
    DeliverKeepsListed(f, i, pc);
  }

  lemma {:induction false} DropKeepsListed(f: Feed, ch: Chan)
    requires Listed(f) && ch in f.waiting && !f.panicked
    ensures Listed(Drop(f, ch)) && !Drop(f, ch).panicked
  {
    WaitingFound(f, ch);
    DeleteDropsSub(f.cases, Find(f.cases, ch));
  }

  lemma {:induction false} InterruptKeepsInv(f: Feed, ch: Chan)
    requires Inv(f) && f.lock.BySend? && f.lock.send.pc.Selecting? && ch in f.waiting
    ensures Inv(Interrupt(f, ch))
  {
    WaitingFound(f, ch);
    DropKeepsListed(f, ch);
  }

  lemma {:induction false} DrainKeepsInv(f: Feed)
    requires Inv(f)
    ensures Inv(Drain(f))
  {
    var cs := f.cases + f.inbox;
    assert cs[1..] == f.cases[1..] + f.inbox;
    assert cs[|cs|..] == [];
  }

  lemma {:induction false} WithdrawKeepsInv(f: Feed, ch: Chan)
    requires Inv(f) && ch in f.live - f.waiting
    ensures Inv(Withdraw(f, ch))
  {
    if Find(f.inbox, ch) == -1 {
      assert multiset(f.inbox)[ch] == 0;
      assert Subs(f.cases)[ch] == f.live[ch];
    }
  }

  lemma {:induction false} StepKeepsInv(f: Feed, step: Step)
    requires Inv(f) && Enabled(f, step)
    ensures Inv(Next(f, step))
  {
    match step
    case TryDelivers => DeliverKeepsInv(f, f.lock.send.pc.i, f.lock.send.pc);
    case SelectDelivers(k) => DeliverKeepsInv(f, k, Trying(FIRST_SUB));
    case SelectRemoves(ch) => InterruptKeepsInv(f, ch);
    case RemoveDeletes(ch) => DropKeepsListed(f, ch);
    case SendDrains => DrainKeepsInv(f);
    case Unsubscribe(ch) => WithdrawKeepsInv(f, ch);
    case _ =>
  }

  // ---- What one step does to the running send ----------------------------------------------

  ghost predicate Transition(f: Feed, step: Step, g: Feed) {
    Enabled(f, step) && g == Next(f, step)
  }

  /** A send has drained the inbox and not yet returned. */
  ghost predicate InSend(f: Feed) {
    Running(f) && !f.lock.send.pc.Draining? && 1 <= f.lock.send.active
  }

  /** The subscriber cases of the active prefix. */
  ghost function Active(f: Feed): multiset<Chan>
    requires InSend(f)
  {
    multiset(f.cases[1..f.lock.send.active])
  }

  /** An upper bound on the steps of its own the send still takes. */
  ghost function Fuel(f: Feed): nat {
    if !InSend(f) then 0 else
      var n, s := |f.cases|, f.lock.send;
      (n + s.active) * (n + 3) + match s.pc
                                 case Trying(i) => if i <= s.active then s.active - i + 2 else 0
                                 case Selecting => 1
                                 case _ => 0
  }

  /** The steps of the send's own loop. */
  ghost predicate Works(step: Step) {
    step.TryDelivers? || step.TryFails? || step.TryEnds? || step.SelectDelivers? || step.SelectRemoves?
  }

  ghost function Handed(f: Feed, step: Step): seq<Chan>
    requires InSend(f)
  {
    match step
    case TryDelivers => if f.lock.send.pc.Trying? && f.lock.send.pc.i < f.lock.send.active then [f.cases[f.lock.send.pc.i]] else []
    case SelectDelivers(k) => if k < f.lock.send.active then [f.cases[k]] else []
    case _ => []
  }

  ghost function Struck(f: Feed, step: Step): multiset<Chan>
    requires InSend(f)
  {
    if step.SelectRemoves? && 0 <= Find(f.cases, step.ch) < f.lock.send.active then multiset{step.ch} else multiset{}
  }

  /** What a step means for the send in progress. */
  ghost function EntryOf(f: Feed, step: Step): Entry {
    if InSend(f) then
      Entry(Active(f), f.lock.send.nsent, Handed(f, step), Struck(f, step),
            if step.SelectRemoves? then [step.ch] else [])
    else Entry(multiset{}, 0, [], multiset{}, [])
  }

  lemma {:induction false} DeactivateShrinksPrefix(cs: seq<Chan>, active: nat, i: nat)
    requires 1 <= i < active <= |cs|
    ensures multiset(Deactivate(cs, active, i)[1..active - 1]) + multiset{cs[i]} == multiset(cs[1..active])
  {
    var p, r := cs[1..active], Deactivate(cs, active, i);
    var q := Deactivate(p, active - 1, i - 1);
    assert q == r[1..active - 1] + [cs[i]];
    assert multiset(q) == multiset(p);
  }

  lemma {:induction false} DeleteShrinksPrefix(cs: seq<Chan>, active: nat, i: nat)
    requires 1 <= i < |cs| && 1 <= active <= |cs|
    ensures i < active ==> multiset(Delete(cs, i)[1..active - 1]) + multiset{cs[i]} == multiset(cs[1..active])
    ensures i >= active ==> Delete(cs, i)[1..active] == cs[1..active]
  {
    if i < active {
      assert cs[1..active] == cs[1..i] + [cs[i]] + cs[i + 1..active];
      assert Delete(cs, i)[1..active - 1] == cs[1..i] + cs[i + 1..active];
    }
  }

  lemma {:induction false} FuelDrops(n: nat, m: nat, a: nat, b: nat)
    requires m <= n && b <= a && (m < n || b < a)
    ensures (m + b) * (m + 3) + n + 3 <= (n + a) * (n + 3)
  {
    TimesGrows(m + 3, n + 3, m + b);
    TimesGrows(m + b + 1, n + a, n + 3);
    assert (m + b + 1) * (n + 3) == (m + b) * (n + 3) + (n + 3);
    assert (m + b) * (m + 3) == (m + 3) * (m + b) && (m + b) * (n + 3) == (n + 3) * (m + b);
  }

  /** The account of a step that leads from `f` to `g`, whatever the step after it. */
  ghost predicate Accounts(f: Feed, step: Step, g: Feed) {
    && InSend(f) && InSend(g)
    && Active(g) + multiset(Handed(f, step)) + Struck(f, step) == Active(f)
    && g.lock.send.nsent == f.lock.send.nsent + |Handed(f, step)|
    && Fuel(g) + (if Works(step) then 1 else 0) <= Fuel(f)
  }

  lemma {:induction false} DeliveryBurns(f: Feed, i: nat, pc: Pc)
    requires InSend(f) && 1 <= i < f.lock.send.active && f.cases[i] != RemoveSub && pc.Trying? && 1 <= pc.i
    ensures InSend(Deliver(f, i, pc)) && Fuel(Deliver(f, i, pc)) < Fuel(f)
  {
    FuelDrops(|f.cases|, |f.cases|, f.lock.send.active, f.lock.send.active - 1);
  }

  lemma {:induction false} DeliveryServes(f: Feed, i: nat, pc: Pc)
    requires InSend(f) && 1 <= i < f.lock.send.active && f.cases[i] != RemoveSub && pc.Trying? && 1 <= pc.i
    ensures InSend(Deliver(f, i, pc)) && Active(Deliver(f, i, pc)) + multiset{f.cases[i]} == Active(f)
  {
    DeactivateShrinksPrefix(f.cases, f.lock.send.active, i);
  }

  lemma {:induction false} DeliveryAccounted(f: Feed, i: nat, pc: Pc, step: Step)
    requires InSend(f) && 1 <= i < f.lock.send.active && f.cases[i] != RemoveSub && pc.Trying? && 1 <= pc.i
    requires !step.SelectRemoves? && Handed(f, step) == [f.cases[i]]
    ensures Accounts(f, step, Deliver(f, i, pc))
  {
    DeliveryServes(f, i, pc);
    DeliveryBurns(f, i, pc);
  }

  lemma {:induction false} InterruptBurns(f: Feed, ch: Chan)
    requires InSend(f) && f.lock.send.pc.Selecting? && 1 <= Find(f.cases, ch)
    ensures InSend(Interrupt(f, ch)) && Fuel(Interrupt(f, ch)) < Fuel(f)
  {
    var a, i, n := f.lock.send.active, Find(f.cases, ch), |f.cases|;
    FuelDrops(n, n - 1, a, if i < a then a - 1 else a);
  }

  lemma {:induction false} InterruptStrikes(f: Feed, ch: Chan)
    requires InSend(f) && f.lock.send.pc.Selecting? && 1 <= Find(f.cases, ch)
    ensures InSend(Interrupt(f, ch)) && Active(Interrupt(f, ch)) + Struck(f, SelectRemoves(ch)) == Active(f)
  {
    DeleteShrinksPrefix(f.cases, f.lock.send.active, Find(f.cases, ch));
  }

  lemma {:induction false} InterruptAccounted(f: Feed, ch: Chan)
    requires InSend(f) && f.lock.send.pc.Selecting? && 1 <= Find(f.cases, ch)
    ensures Accounts(f, SelectRemoves(ch), Interrupt(f, ch))
  {
    InterruptStrikes(f, ch);
    InterruptBurns(f, ch);
  }

  /** Steps that leave the case list alone and move the send at most to its next instruction. */
  lemma {:induction false} QuietAccounted(f: Feed, step: Step, g: Feed)
    requires InSend(f) && g.lock.BySend? && g.cases == f.cases && g.lock.send == f.lock.send.(pc := g.lock.send.pc)
    requires step.Subscribe? || step.Unsubscribe? || step.TryFails? || step.TryEnds?
    requires InSend(g) && Fuel(g) + (if step.TryFails? || step.TryEnds? then 1 else 0) <= Fuel(f)
    ensures Accounts(f, step, g)
  {
  }

  lemma {:induction false} WithdrawAccounted(f: Feed, ch: Chan)
    requires InSend(f)
    ensures Accounts(f, Unsubscribe(ch), Withdraw(f, ch))
  {
    var g := Withdraw(f, ch);
    assert g.cases == f.cases && g.lock == f.lock;
  }

  lemma {:induction false} StepAccounted(f: Feed, step: Step)
    requires Inv(f) && InSend(f) && Enabled(f, step) && step != SendUnlocks
    ensures Accounts(f, step, Next(f, step))
  {
    match step
    case TryDelivers =>
      SubAt(f, f.lock.send.pc.i);
      DeliveryAccounted(f, f.lock.send.pc.i, f.lock.send.pc, step);
    case SelectDelivers(k) =>
      SubAt(f, k);
      DeliveryAccounted(f, k, Trying(FIRST_SUB), step);
    case SelectRemoves(ch) =>
      WaitingFound(f, ch);
      InterruptAccounted(f, ch);
    case Subscribe(_) => QuietAccounted(f, step, Next(f, step));
    case Unsubscribe(ch) => WithdrawAccounted(f, ch);
    case TryFails => QuietAccounted(f, step, Next(f, step));
    case TryEnds => QuietAccounted(f, step, Next(f, step));
    case RemoveLocks(_) =>
    case RemoveDeletes(_) =>
    case SendLocks =>
    case SendDrains =>
  }

  lemma {:induction false} FindIsFirst(cs: seq<Chan>, ch: Chan, j: nat)
    requires j < |cs| && cs[j] == ch
    ensures 0 <= Find(cs, ch) <= j
  {
    forall i | j < i <= |cs| ensures ch in cs[..i] {
      assert cs[..i][j] == ch;
    }
  }

  lemma {:induction false} RemovalSound(f: Feed, step: Step)
    ensures Sound(EntryOf(f, step))
  {
    if InSend(f) && step.SelectRemoves? && step.ch in Active(f) {
      var a := f.lock.send.active;
      assert step.ch in f.cases[1..a];
      var j :| 1 <= j < a && f.cases[j] == step.ch;
      FindIsFirst(f.cases, step.ch, j);
    }
  }

  // ---- Whole runs ----------------------------------------------------------------------------

  lemma {:induction false} TransitionsKeepInv()
    ensures Keeps(Transition, Inv)
  {
    forall f, step, g | Inv(f) && Transition(f, step, g) ensures Inv(g) {
      StepKeepsInv(f, step);
    }
  }

  lemma {:induction false} InvAt(states: seq<Feed>, steps: seq<Step>, n: nat)
    requires Path(Transition, states, steps) && states[0] == INIT && n <= |steps|
    ensures Inv(states[n])
  {
    TransitionsKeepInv();
    PathKeeps(Transition, Inv, states, steps, n);
  }

  /** In every reachable state, whatever the interleaving: nothing has panicked, the remove channel
      is in slot 0 and nowhere else, every live subscription is in exactly one of the two lists, and
      every waiting removal will find its case. */
  lemma {:induction false} EveryRunIsSafe(states: seq<Feed>, steps: seq<Step>, n: nat)
    requires Path(Transition, states, steps) && states[0] == INIT && n <= |steps|
    ensures Inv(states[n])
    ensures forall ch | ch in states[n].waiting :: 1 <= Find(states[n].cases, ch)
  {
    InvAt(states, steps, n);
    forall ch | ch in states[n].waiting ensures 1 <= Find(states[n].cases, ch) {
      WaitingFound(states[n], ch);
    }
  }

  ghost predicate Opens(step: Step) { step == SendDrains }

  ghost predicate Ends(step: Step) { step == SendUnlocks }

  lemma {:induction false} DrainStarts(f: Feed, g: Feed)
    requires Listed(f) && g == Drain(f)
    ensures InSend(g) && Active(g) == g.live && g.lock.send.nsent == 0 && g.lock.send.active == |g.cases|
  {
    assert g.cases[1..|g.cases|] == f.cases[1..] + f.inbox;
  }

  lemma {:induction false} LineLeads(f: Feed, step: Step, g: Feed, next: Step)
    requires Inv(f) && InSend(f) && Transition(f, step, g) && !Ends(step)
    ensures Leads(EntryOf(f, step), EntryOf(g, next))
  {
    StepAccounted(f, step);
  }

  lemma {:induction false} SendsContinue()
    ensures Continues(Transition, Inv, InSend, Opens, Ends)
  {
    forall f, step, g | Inv(f) && Transition(f, step, g) && (Opens(step) || (InSend(f) && !Ends(step))) ensures InSend(g) {
      if Opens(step) {
        DrainStarts(f, g);
      } else {
        StepAccounted(f, step);
      }
    }
  }

  lemma {:induction false} SendsAreAccountable()
    ensures Accountable(Transition, Inv, InSend, EntryOf, Ends)
  {
    forall f, step, g, b | Inv(f) && Transition(f, step, g) && InSend(f) && !Ends(step)
      ensures Leads(EntryOf(f, step), EntryOf(g, b))
    {
      LineLeads(f, step, g, b);
    }
  }

  /** A send drained the inbox at step `d` and has not released the lock before step `k`. */
  ghost predicate OpenSend(states: seq<Feed>, steps: seq<Step>, d: nat, k: nat) {
    Path(Transition, states, steps) && states[0] == INIT && Stretch(steps, Opens, Ends, d, k)
  }

  /** One send: it drains the inbox at step `d` and releases the lock at step `k`. */
  ghost predicate OneSend(states: seq<Feed>, steps: seq<Step>, d: nat, k: nat) {
    OpenSend(states, steps, d, k) && k < |steps| && Ends(steps[k])
  }

  /** The account of the steps that everyone takes while that send runs. */
  ghost function Account(states: seq<Feed>, steps: seq<Step>, d: nat, k: nat): seq<Entry>
    requires OpenSend(states, steps, d, k)
  {
    Log(EntryOf, SendUnlocks, states, steps, d, k)
  }

  lemma {:induction false} AccountBalanced(states: seq<Feed>, steps: seq<Step>, d: nat, k: nat)
    requires OpenSend(states, steps, d, k)
    ensures Balanced(Account(states, steps, d, k))
  {
    TransitionsKeepInv();
    SendsContinue();
    SendsAreAccountable();
    forall f, step ensures Sound(EntryOf(f, step)) {
      RemovalSound(f, step);
    }
    LogBalanced(Transition, Inv, InSend, EntryOf, SendUnlocks, Opens, Ends, states, steps, d, k);
  }

  /** The account opens with the live subscriptions. */
  lemma {:induction false} FirstLine(f: Feed, g: Feed, step: Step)
    requires Inv(f) && Transition(f, SendDrains, g)
    ensures EntryOf(g, step).active == g.live && EntryOf(g, step).count == 0
    ensures Fuel(g) == (|g.cases| + |g.cases|) * (|g.cases| + 3) + |g.cases| + 1
  {
    DrainStarts(f, g);
  }

  /** The account closes with nobody left to serve. */
  lemma {:induction false} LastLine(f: Feed, g: Feed)
    requires Inv(f) && Transition(f, SendUnlocks, g)
    ensures f.lock.BySend? && EntryOf(f, SendUnlocks) == Entry(multiset{}, f.lock.send.nsent, [], multiset{}, [])
  {
    assert f.cases[1..1] == [];
  }

  lemma {:induction false} FirstLineAt(states: seq<Feed>, steps: seq<Step>, d: nat, next: Step)
    requires Path(Transition, states, steps) && states[0] == INIT && d < |steps| && Opens(steps[d])
    ensures EntryOf(states[d + 1], next).active == states[d + 1].live && EntryOf(states[d + 1], next).count == 0
    ensures var n := |states[d + 1].cases|; Fuel(states[d + 1]) == (n + n) * (n + 3) + n + 1
  {
    InvAt(states, steps, d);
    assert Transition(states[d], steps[d], states[d + 1]);
    FirstLine(states[d], states[d + 1], next);
  }

  lemma {:induction false} AccountOpens(states: seq<Feed>, steps: seq<Step>, d: nat, k: nat)
    requires OpenSend(states, steps, d, k)
    ensures Account(states, steps, d, k)[0].active == states[d + 1].live && Account(states, steps, d, k)[0].count == 0
  {
    FirstLineAt(states, steps, d, if k == d + 1 then SendUnlocks else steps[d + 1]);
  }

  lemma {:induction false} LastLineAt(states: seq<Feed>, steps: seq<Step>, k: nat)
    requires Path(Transition, states, steps) && states[0] == INIT && k < |steps| && Ends(steps[k])
    ensures states[k].lock.BySend?
    ensures EntryOf(states[k], steps[k]) == Entry(multiset{}, states[k].lock.send.nsent, [], multiset{}, [])
  {
    InvAt(states, steps, k);
    assert Transition(states[k], steps[k], states[k + 1]);
    LastLine(states[k], states[k + 1]);
  }

  lemma {:induction false} AccountCloses(states: seq<Feed>, steps: seq<Step>, d: nat, k: nat)
    requires OneSend(states, steps, d, k)
    ensures states[k].lock.BySend?
    ensures Account(states, steps, d, k)[k - d - 1] == Entry(multiset{}, states[k].lock.send.nsent, [], multiset{}, [])
  {
    LastLineAt(states, steps, k);
  }

  lemma {:induction false} StillSending(states: seq<Feed>, steps: seq<Step>, d: nat, k: nat)
    requires OpenSend(states, steps, d, k)
    ensures InSend(states[k])
  {
    TransitionsKeepInv();
    SendsContinue();
    RunsOn(Transition, Inv, InSend, Opens, Ends, states, steps, d, k, k);
  }

  /** At every moment of a send, however others interleave: what it has still to serve, what it has
      delivered and what was removed first make up the subscriptions it started with, and its count
      is that of the deliveries. */
  lemma {:induction false} SendConserves(states: seq<Feed>, steps: seq<Step>, d: nat, k: nat)
    requires OpenSend(states, steps, d, k)
    ensures InSend(states[k])
    ensures var log := Account(states, steps, d, k);
            && Active(states[k]) + multiset(Delivered(log, |log|)) + Revoked(log, |log|) == states[d + 1].live
            && states[k].lock.send.nsent == |Delivered(log, |log|)|
  {
    StillSending(states, steps, d, k);
    AccountBalanced(states, steps, d, k);
    AccountOpens(states, steps, d, k);
    ConservesAll(Account(states, steps, d, k));
  }

  /** A send in progress can always take a step of its own, if no receiver blocks for ever. */
  lemma {:induction false} NeverStuck(f: Feed) returns (step: Step)
    requires Inv(f) && InSend(f)
    ensures Enabled(f, step) && (Works(step) || Ends(step))
  {
    match f.lock.send.pc
    case Trying(i) => step := if i < f.lock.send.active then TryFails else TryEnds;
    case Selecting => step := SelectDelivers(1);
    case Finished => step := SendUnlocks;
  }

  /** When a send returns, every channel subscribed when it drained the inbox has received the
      value once for each of its subscriptions, less those removed before the value reached them;
      no other channel has; and the result is the number of deliveries. */
  lemma {:induction false} SendDelivers(states: seq<Feed>, steps: seq<Step>, d: nat, k: nat)
    requires OneSend(states, steps, d, k)
    ensures var log := Account(states, steps, d, k);
            && multiset(Delivered(log, |log|)) + Revoked(log, |log|) == states[d + 1].live
            && states[k].lock.BySend? && states[k].lock.send.nsent == |Delivered(log, |log|)|
  {
    AccountCloses(states, steps, d, k);
    SendConserves(states, steps, d, k);
  }

  /** A channel subscribed once receives the value exactly once, unless its removal comes first;
      then, and only then, not at all. */
  lemma {:induction false} ExactlyOnce(states: seq<Feed>, steps: seq<Step>, d: nat, k: nat, ch: Chan)
    requires OneSend(states, steps, d, k) && states[d + 1].live[ch] == 1
    ensures var log := Account(states, steps, d, k);
            multiset(Delivered(log, |log|))[ch] == if RemovedFirst(log, |log|, ch) then 0 else 1
  {
    AccountBalanced(states, steps, d, k);
    AccountOpens(states, steps, d, k);
    AccountCloses(states, steps, d, k);
    OnceOrRemoved(Account(states, steps, d, k), ch);
  }

  /** However many goroutines subscribe and unsubscribe meanwhile, a send over n cases takes at
      most quadratically many steps of its own, in any run, whether it has returned in it or not. */
  lemma {:induction false} SendEnds(states: seq<Feed>, steps: seq<Step>, d: nat, k: nat)
    requires OpenSend(states, steps, d, k)
    ensures var n := |states[d + 1].cases|;
            Count(Works, steps, d + 1, k) <= (n + n) * (n + 3) + n + 1
  {
    TransitionsKeepInv();
    SendsContinue();
    forall f, step, g | Inv(f) && Transition(f, step, g) && InSend(f) && !Ends(step)
      ensures Fuel(g) + (if Works(step) then 1 else 0) <= Fuel(f)
    {
      StepAccounted(f, step);
    }
    FuelBounds(Transition, Inv, InSend, Opens, Ends, Fuel, Works, states, steps, d, k, k);
    FirstLineAt(states, steps, d, SendUnlocks);
  }
}
