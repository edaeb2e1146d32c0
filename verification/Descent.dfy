/** The way down of a rewind, worked out from the state before it: which header it stops at, where it
    takes the block and snap markers, when it is forced further down, and when it crashes. */
module Descents {
  import opened Common
  import opened ChainDb
  import opened Forks
  import opened Rewind

  ghost predicate Done(h: Header, target: nat, time: nat) {
    if time > 0 then h.time <= time else h.number <= target
  }

  ghost predicate OnlyGenesis(w: map<Hash, Header>, genesis: Header, h: Hash) {
    h in w && w[h].number == 0 ==> w[h] == genesis
  }

  /** Genesis is stored and is the only header at height 0. */
  ghost predicate Based(w: map<Hash, Header>, genesis: Header) {
    && genesis.number == 0 && Stored(w, genesis)
    && (forall h :: OnlyGenesis(w, genesis, h))
  }

  /** No header between `start` and `cur` would have been a place to stop. */
  ghost predicate NotTooFar(w: map<Hash, Header>, start: Header, cur: Header, target: nat, time: nat)
    requires Linked(w)
  {
    forall n: nat | cur.number < n <= start.number && AncestorAt(w, start.hash, n) != ZERO ::
      !Done(w[AncestorAt(w, start.hash, n)], target, time)
  }

  /** How a node looks for a state. */
  datatype Scheme = HashScheme(pivot: Option<nat>) | PathScheme(pivot: Option<nat>, recoverable: set<Hash>, recover: Recovery)

  ghost function SearchOf(scheme: Scheme, states: set<Hash>, h: Header): Search {
    match scheme
    case HashScheme(pivot) => HashSearch(states, SearchLimit(pivot, h))
    case PathScheme(pivot, recoverable, _) => PathSearch(states, recoverable, pivot)
  }

  ghost function RecoveryOf(scheme: Scheme): Recovery {
    if scheme.PathScheme? then scheme.recover else map[]
  }

  /** Where the snap marker goes when the chain is rewound to `header`. */
  function SnapBelow(bodies: map<Hash, seq<TxHash>>, frozen: nat, genesis: Header, header: Header, snap: Header): Header {
    if header.number >= snap.number then snap
    else if header.hash in bodies || header.number < frozen then header else genesis
  }

  /** The ancient store reaches above the block head, and not because of a snap sync. */
  predicate Forces(scheme: Scheme, block: Header, frozen: nat) {
    block.number + 1 < frozen && (scheme.pivot.None? || block.number >= scheme.pivot.value)
  }

  // ---- One step down ----------------------------------------------------------------------

  /** What a rewind reads: the headers, the bodies, the length of the ancient store, the genesis block,
      the scheme, the requested root, and whether the block markers are rewound along. */
  datatype Ground = Ground(headers: map<Hash, Header>, bodies: map<Hash, seq<TxHash>>, frozen: nat, genesis: Header,
                           scheme: Scheme, root: Hash, update: bool)

  /** Where a rewind stands: the three markers, the states at hand, the height where the root was met, the
      target, and whether it was forced below the target it was given. */
  datatype Stand = Stand(header: Header, block: Header, snap: Header, states: set<Hash>, rootNumber: nat,
                         target: nat, time: nat, forced: bool)

  ghost predicate OnGround(g: Ground, s: Stand) {
    Linked(g.headers) && Based(g.headers, g.genesis) && Stored(g.headers, s.header)
  }

  ghost function ParentOf(g: Ground, h: Header): Header {
    if h.parent in g.headers then g.headers[h.parent] else g.genesis
  }

  /** Where a search for a block with state ends when the rewind has come to `h`. */
  ghost function LandFrom(g: Ground, states: set<Hash>, h: Header): Landing
    requires Linked(g.headers)
  {
    Land(g.headers, SearchOf(g.scheme, states, h), RecoveryOf(g.scheme), g.genesis, h, g.root)
  }

  /** That search runs into a missing parent. */
  ghost predicate FallsFrom(g: Ground, states: set<Hash>, h: Header)
    requires Linked(g.headers)
  {
    g.scheme.HashScheme? && FallsOff(g.headers, states, h, g.root, SearchLimit(g.scheme.pivot, h))
  }

  /** The block marker is searched anew unless it is below `h` already. */
  ghost predicate Searches(g: Ground, s: Stand, h: Header) {
    g.update && h.number <= s.block.number
  }

  ghost function BlockAt(g: Ground, s: Stand, h: Header): Landing
    requires Linked(g.headers)
  {
    if Searches(g, s, h) then LandFrom(g, s.states, h) else Landing(s.block, s.states, s.rootNumber)
  }

  /** With the block marker at `block` the target is given up for a lower one: the height of the marker. */
  ghost predicate Drops(g: Ground, s: Stand, block: Header) {
    && g.update && Forces(g.scheme, block, g.frozen)
    && if s.time > 0 then block.time < s.time else block.number < s.target
  }

  /** One step: to the parent, or to genesis when the parent is missing. */
  ghost function Lower(g: Ground, s: Stand): Stand
    requires Linked(g.headers)
  {
    var p := ParentOf(g, s.header);
    var l := BlockAt(g, s, p);
    var drops := Drops(g, s, l.header);
    Stand(p, l.header, if g.update then SnapBelow(g.bodies, g.frozen, g.genesis, p, s.snap) else s.snap, l.states, l.rootNumber,
          if drops then l.header.number else s.target, if drops then 0 else s.time, s.forced || drops)
  }

  ghost predicate Falls(g: Ground, s: Stand)
    requires Linked(g.headers)
  {
    Searches(g, s, ParentOf(g, s.header)) && FallsFrom(g, s.states, ParentOf(g, s.header))
  }

  // ---- The whole way ------------------------------------------------------------------------

  ghost predicate Stops(s: Stand) {
    Done(s.header, s.target, s.time) || s.header.number == 0
  }

  /** Where the rewind ends, or stands when it crashes. */
  ghost function Descend(g: Ground, s: Stand): Stand
    requires OnGround(g, s)
    decreases s.header.number
  {
    if Stops(s) || Falls(g, s) then s else Descend(g, Lower(g, s))
  }

  ghost predicate Crashes(g: Ground, s: Stand)
    requires OnGround(g, s)
    decreases s.header.number
  {
    !Stops(s) && (Falls(g, s) || Crashes(g, Lower(g, s)))
  }

  /** A rewind that stands at `cur` ends where one from `s` does. */
  ghost predicate SameWay(g: Ground, s: Stand, cur: Stand) {
    && OnGround(g, s) && OnGround(g, cur) && (cur.time > 0 ==> g.genesis.time <= cur.time)
    && Descend(g, cur) == Descend(g, s) && (Crashes(g, cur) <==> Crashes(g, s))
  }

  /** Short of the target the way goes on below, or the rewind crashes. */
  lemma {:induction false} NotYetThere(g: Ground, s: Stand, cur: Stand)
    requires SameWay(g, s, cur) && !Done(cur.header, cur.target, cur.time)
    ensures !Stops(cur) && Lower(g, cur).header.number < cur.header.number
    ensures if Falls(g, cur) then Crashes(g, s) && Descend(g, s) == cur else SameWay(g, s, Lower(g, cur))
  {
    assert OnlyGenesis(g.headers, g.genesis, cur.header.hash);
  }

  lemma {:induction false} WayEnds(g: Ground, s: Stand, cur: Stand)
    requires SameWay(g, s, cur) && Done(cur.header, cur.target, cur.time)
    ensures Descend(g, s) == cur && !Crashes(g, s)
  {
  }

  /** A search ends at or below the block it starts from. */
  lemma {:induction false} LandsBelow(g: Ground, states: set<Hash>, h: Header)
    requires Linked(g.headers) && g.genesis.number == 0
    ensures LandFrom(g, states, h).header.number <= h.number
  {
  }

  lemma {:induction false} BlockBelow(g: Ground, s: Stand, h: Header)
    requires Linked(g.headers) && g.genesis.number == 0 && g.update
    ensures BlockAt(g, s, h).header.number <= h.number
  {
    LandsBelow(g, s.states, h);
  }

  /** A target that was given up is given up for one below the header, in block mode. */
  lemma {:induction false} TargetsFall(g: Ground, s: Stand)
    requires OnGround(g, s)
    ensures var t := Descend(g, s);
            && (t.target != s.target || t.time != s.time ==>
                  && t.forced && t.time == 0 && t.target < s.header.number && (s.time == 0 ==> t.target < s.target)
                  && g.update && t.target + 1 < g.frozen && (g.scheme.pivot.None? || t.target >= g.scheme.pivot.value))
            && (t.target == s.target && t.time == s.time ==> t.forced == s.forced)
    decreases s.header.number
  {
    if !Stops(s) && !Falls(g, s) {
      TargetsFall(g, Lower(g, s));
      if g.update {
        BlockBelow(g, s, ParentOf(g, s.header));
      }
    }
  }

  lemma {:induction false} LineBelow(w: map<Hash, Header>, h: Header, genesis: Header, n: nat)
    requires Linked(w) && Stored(w, h) && genesis.number == 0 && h.number > 0 && 0 < n <= h.number
    ensures var p := if h.parent in w then w[h.parent] else genesis;
            AncestorAt(w, h.hash, n) == if n == h.number then h.hash else if h.parent in w then AncestorAt(w, p.hash, n) else ZERO
  {
  }

  /** The rewind ends at the first header on its way that meets the target it ends with. It keeps to the
      line of the header it starts at, or ends at genesis. */
  lemma {:induction false} DescentEnds(g: Ground, s: Stand)
    requires OnGround(g, s)
    ensures var t := Descend(g, s);
            && Stored(g.headers, t.header) && (t.header == s.header || t.header.number < s.header.number)
            && (OnLine(g.headers, t.header, s.header.hash) || t.header == g.genesis)
            && NotTooFar(g.headers, s.header, t.header, t.target, t.time)
            && (!Crashes(g, s) ==> Stops(t))
    decreases s.header.number
  {
    if !Stops(s) && !Falls(g, s) {
      var next, t := Lower(g, s), Descend(g, s);
      DescentEnds(g, next);
      TargetsFall(g, s);
      forall n: nat | t.header.number < n <= s.header.number && AncestorAt(g.headers, s.header.hash, n) != ZERO
        ensures !Done(g.headers[AncestorAt(g.headers, s.header.hash, n)], t.target, t.time)
      {
        LineBelow(g.headers, s.header, g.genesis, n);
      }
      assert OnlyGenesis(g.headers, g.genesis, t.header.hash);
      if s.header.parent in g.headers && t.header != g.genesis {
        LineBelow(g.headers, s.header, g.genesis, t.header.number);
      }
    }
  }

  /** A descent with a time target never passes genesis. */
  lemma {:induction false} DescentDone(g: Ground, s: Stand)
    requires OnGround(g, s) && (s.time > 0 ==> g.genesis.time <= s.time) && !Crashes(g, s)
    ensures var t := Descend(g, s); Done(t.header, t.target, t.time)
  {
    DescentEnds(g, s);
    TargetsFall(g, s);
    assert OnlyGenesis(g.headers, g.genesis, Descend(g, s).header.hash);
  }

  /** A rewind to a time ends at a header of that time or before, and everything it passed is later; a
      rewind to a height ends at or below it, and everything it passed is above. */
  lemma {:induction false} DescentStops(g: Ground, s: Stand)
    requires OnGround(g, s) && (s.time > 0 ==> g.genesis.time <= s.time) && !Crashes(g, s)
    ensures var t := Descend(g, s);
            && (t.time > 0 ==> t.header.time <= t.time) && (t.time == 0 ==> t.header.number <= t.target)
            && forall n: nat | t.header.number < n <= s.header.number && AncestorAt(g.headers, s.header.hash, n) != ZERO ::
                 if t.time > 0 then g.headers[AncestorAt(g.headers, s.header.hash, n)].time > t.time else n > t.target
  {
    DescentDone(g, s);
    DescentEnds(g, s);
  }

  /** When the rewind has moved and the ancient store reaches above the block marker, with no pivot above
      it, the header is taken down to that marker: no frozen block is left above it. */
  lemma {:induction false} FreezerFollows(g: Ground, s: Stand)
    requires OnGround(g, s) && g.update && !Stops(s) && !Crashes(g, s)
    ensures var t := Descend(g, s);
            t.time == 0 && t.block.number + 1 < g.frozen && (g.scheme.pivot.None? || g.scheme.pivot.value <= t.block.number) ==>
              t.header.number == t.block.number
    decreases s.header.number
  {
    BlockBelow(g, s, ParentOf(g, s.header));
    if !Stops(Lower(g, s)) {
      FreezerFollows(g, Lower(g, s));
    }
  }

  /** Only a line that ends above height 0 crashes the rewind, and only in the hash scheme. */
  lemma {:induction false} CrashNeedsGap(g: Ground, s: Stand)
    requires OnGround(g, s) && Crashes(g, s)
    ensures g.update && g.scheme.HashScheme? && AncestorAt(g.headers, s.header.hash, 0) == ZERO
    decreases s.header.number
  {
    var p := ParentOf(g, s.header);
    if Falls(g, s) {
      if AncestorAt(g.headers, p.hash, 0) != ZERO {
        UngappedNeverCrashes(g.headers, s.states, p, g.root, SearchLimit(g.scheme.pivot, p));
        assert false;
      }
    } else {
      CrashNeedsGap(g, Lower(g, s));
    }
  }

  /** The block and snap markers end at or below the header. */
  lemma {:induction false} MarkersBelow(g: Ground, s: Stand)
    requires OnGround(g, s) && g.update && s.block.number <= s.header.number && s.snap.number <= s.header.number
    ensures var t := Descend(g, s); t.block.number <= t.header.number && t.snap.number <= t.header.number
    decreases s.header.number
  {
    if !Stops(s) && !Falls(g, s) {
      BlockBelow(g, s, ParentOf(g, s.header));
      MarkersBelow(g, Lower(g, s));
    }
  }

  /** A rewind that ends at the header it starts from has changed nothing. */
  lemma {:induction false} StandsStill(g: Ground, s: Stand)
    requires OnGround(g, s)
    ensures Descend(g, s).header == s.header ==> Descend(g, s) == s
  {
    if !Stops(s) && !Falls(g, s) {
      DescentEnds(g, Lower(g, s));
    }
  }

  /** Without a requested root none is reported. */
  lemma {:induction false} NoRootNoNumber(g: Ground, s: Stand)
    requires OnGround(g, s) && g.root == ZERO && s.rootNumber == 0
    ensures Descend(g, s).rootNumber == 0
    decreases s.header.number
  {
    if !Stops(s) && !Falls(g, s) {
      var p := ParentOf(g, s.header);
      RootMetIs(g.headers, SearchOf(g.scheme, s.states, p), p, g.root, p.number, 0);
      NoRootNoNumber(g, Lower(g, s));
    }
  }

  /** Without the block markers only the header moves. */
  lemma {:induction false} HeaderAlone(g: Ground, s: Stand)
    requires OnGround(g, s) && !g.update
    ensures !Crashes(g, s) && Descend(g, s) == s.(header := Descend(g, s).header)
    decreases s.header.number
  {
    if !Stops(s) {
      HeaderAlone(g, Lower(g, s));
    }
  }

  ghost predicate HasState(g: Ground, s: Stand, n: nat)
    requires Linked(g.headers)
  {
    var a := AncestorAt(g.headers, s.header.hash, n);
    a != ZERO && g.headers[a].root in s.states
  }

  /** Every header of the line above `cur` is later than the time, or above the height, that was asked for. */
  ghost predicate LaterThan(g: Ground, s: Stand, cur: Header)
    requires Linked(g.headers)
  {
    forall n: nat | cur.number < n <= s.header.number && AncestorAt(g.headers, s.header.hash, n) != ZERO ::
      if s.time > 0 then g.headers[AncestorAt(g.headers, s.header.hash, n)].time > s.time else n > s.target
  }

  /** What a rewind amounts to, said of headers, heights and times. */
  lemma {:induction false} DescentMeans(g: Ground, s: Stand)
    requires OnGround(g, s) && (s.time > 0 ==> g.genesis.time <= s.time) && !s.forced && s.rootNumber == 0
    ensures var t := Descend(g, s);
            && (t.header == s.header || t.header.number < s.header.number)
            && (g.root == ZERO || t.header == s.header ==> t.rootNumber == 0)
            && (!Crashes(g, s) ==> Done(t.header, t.target, t.time) && NotTooFar(g.headers, s.header, t.header, t.target, t.time))
            && (!Crashes(g, s) && s.time == 0 ==> t.header.number <= s.target)
            && (!Crashes(g, s) && s.time > 0 && !t.forced ==> t.header.time <= s.time)
            && (!Crashes(g, s) && !t.forced ==> LaterThan(g, s, t.header))
  {
    DescentEnds(g, s);
    TargetsFall(g, s);
    StandsStill(g, s);
    if g.root == ZERO {
      NoRootNoNumber(g, s);
    }
    if !Crashes(g, s) {
      DescentDone(g, s);
      DescentStops(g, s);
    }
  }

  /** From the target up the states are at hand and nothing bars the search. */
  ghost predicate Clear(g: Ground, s: Stand) {
    && OnGround(g, s) && g.update && g.root == ZERO && s.time == 0
    && (g.scheme.pivot.None? || g.scheme.pivot.value <= s.target)
    && s.target <= s.block.number <= s.header.number
    && forall n: nat | s.target <= n < s.header.number :: HasState(g, s, n)
  }

  lemma {:induction false} LandsHere(g: Ground, states: set<Hash>, h: Header)
    requires Linked(g.headers) && Stored(g.headers, h) && g.root == ZERO && h.root in states
    requires g.scheme.pivot.None? || g.scheme.pivot.value <= h.number
    ensures LandFrom(g, states, h).header == h && LandFrom(g, states, h).states == states && !FallsFrom(g, states, h)
  {
    assert Candidate(g.headers, SearchOf(g.scheme, states, h), h, g.root, h.number);
  }

  lemma {:induction false} ClearStep(g: Ground, s: Stand)
    requires Clear(g, s) && s.target < s.header.number
    ensures var p := ParentOf(g, s.header);
            && s.header.parent in g.headers && p.number == s.header.number - 1 && !Falls(g, s)
            && Clear(g, Lower(g, s)) && Lower(g, s).target == s.target && Lower(g, s).states == s.states && Lower(g, s).forced == s.forced
            && Lower(g, s).block == if p.number <= s.block.number then p else s.block
  {
    var p := ParentOf(g, s.header);
    assert HasState(g, s, s.header.number - 1);
    assert AncestorAt(g.headers, s.header.hash, s.header.number - 1) == p.hash;
    if p.number <= s.block.number {
      LandsHere(g, s.states, p);
    }
    forall n: nat | s.target <= n < p.number ensures HasState(g, Lower(g, s), n) {
      assert HasState(g, s, n);
    }
  }

  /** A plain rewind to a height whose states are at hand ends exactly there, with the block marker on
      the header, whatever the scheme and the ancient store; it is not forced down and does not crash. */
  lemma {:induction false} PlainRewind(g: Ground, s: Stand)
    requires Clear(g, s)
    ensures !Crashes(g, s)
    ensures var t := Descend(g, s);
            && t.header.hash == AncestorAt(g.headers, s.header.hash, s.target) && t.header.number == s.target
            && t.forced == s.forced && t.states == s.states
            && (s.target < s.header.number ==> t.block == t.header)
    decreases s.header.number
  {
    if s.target < s.header.number {
      ClearStep(g, s);
      PlainRewind(g, Lower(g, s));
    }
  }

  /** And the snap marker ends on the header it passes, if the bodies on the way are there or frozen; below
      the target it stays where it was. */
  lemma {:induction false} PlainSnap(g: Ground, s: Stand)
    requires Clear(g, s)
    requires forall n: nat | s.target <= n < s.header.number :: AncestorAt(g.headers, s.header.hash, n) in g.bodies || n < g.frozen
    ensures Descend(g, s).snap == if s.target < s.header.number && s.target < s.snap.number then Descend(g, s).header else s.snap
    decreases s.header.number
  {
    if s.target < s.header.number {
      ClearStep(g, s);
      PlainRewind(g, s);
      var p, next := ParentOf(g, s.header), Lower(g, s);
      assert AncestorAt(g.headers, s.header.hash, p.number) == p.hash;
      forall n: nat | s.target <= n < p.number ensures AncestorAt(g.headers, p.hash, n) in g.bodies || n < g.frozen {
        assert AncestorAt(g.headers, s.header.hash, n) == AncestorAt(g.headers, p.hash, n);
      }
      PlainSnap(g, next);
    }
  }

  ghost predicate IsLater(g: Ground, s: Stand, k: nat)
    requires Linked(g.headers)
  {
    var a := AncestorAt(g.headers, s.header.hash, k);
    a != ZERO && g.headers[a].time > s.time
  }

  /** A rewind to a time with nothing in its way: `n` is the highest height of the line that is not later,
      and the states from there up are at hand. */
  ghost predicate ClearToTime(g: Ground, s: Stand, n: nat) {
    && OnGround(g, s) && g.update && g.root == ZERO && s.time > 0 && s.block == s.header && n <= s.header.number
    && (g.scheme.pivot.None? || g.scheme.pivot.value <= n)
    && (forall k: nat | n <= k < s.header.number :: HasState(g, s, k))
    && (forall k: nat | n <= k <= s.header.number :: IsLater(g, s, k) <==> n < k)
  }

  lemma {:induction false} TimeStepClear(g: Ground, s: Stand, n: nat)
    requires ClearToTime(g, s, n) && s.header.parent in g.headers && n < ParentOf(g, s.header).number
    requires Lower(g, s).block == ParentOf(g, s.header) && Lower(g, s).states == s.states && Lower(g, s).time == s.time
    ensures ClearToTime(g, Lower(g, s), n)
  {
    var p, next := ParentOf(g, s.header), Lower(g, s);
    forall k: nat | n <= k < p.number ensures HasState(g, next, k) {
      assert HasState(g, s, k);
    }
    forall k: nat | n <= k <= p.number ensures IsLater(g, next, k) <==> n < k {
      assert IsLater(g, s, k) <==> n < k;
    }
  }

  lemma {:induction false} TimeStep(g: Ground, s: Stand, n: nat)
    requires ClearToTime(g, s, n) && n < s.header.number
    ensures var p := ParentOf(g, s.header);
            && s.header.parent in g.headers && p.number == s.header.number - 1 && !Stops(s) && !Falls(g, s)
            && AncestorAt(g.headers, s.header.hash, n) == AncestorAt(g.headers, p.hash, n)
            && var next := Lower(g, s);
            && next.header == next.block == p && next.states == s.states
            && (n < p.number ==> ClearToTime(g, next, n) && next.time == s.time && next.forced == s.forced)
            && (n == p.number ==> Stops(next)
                                  && (next.forced <==> s.forced || (n + 1 < g.frozen && (g.scheme.pivot.None? || g.scheme.pivot.value <= n) && p.time < s.time)))
  {
    var p := ParentOf(g, s.header);
    assert HasState(g, s, s.header.number - 1);
    assert IsLater(g, s, s.header.number) && (IsLater(g, s, s.header.number - 1) <==> n < s.header.number - 1);
    assert AncestorAt(g.headers, s.header.hash, s.header.number) == s.header.hash;
    assert AncestorAt(g.headers, s.header.hash, s.header.number - 1) == p.hash;
    LandsHere(g, s.states, p);
    if n < p.number {
      TimeStepClear(g, s, n);
    }
  }

  /** A plain rewind to a time ends at the highest header that is not later, with the block marker on it. It
      counts as forced exactly when it moved, that header is earlier than the time, and the ancient store
      reaches above it with no pivot above it. */
  lemma {:induction false} TimedRewind(g: Ground, s: Stand, n: nat)
    requires ClearToTime(g, s, n)
    ensures !Crashes(g, s)
    ensures var t := Descend(g, s);
            && t.header == t.block && t.header.hash == AncestorAt(g.headers, s.header.hash, n) && t.header.number == n && t.header.time <= s.time
            && t.states == s.states
            && (t.forced <==> s.forced || (n < s.header.number && t.header.time < s.time
                                           && n + 1 < g.frozen && (g.scheme.pivot.None? || g.scheme.pivot.value <= n)))
    decreases s.header.number
  {
    assert IsLater(g, s, n) <==> n < n;
    assert AncestorAt(g.headers, s.header.hash, s.header.number) == s.header.hash;
    if n < s.header.number {
      TimeStep(g, s, n);
      if n < ParentOf(g, s.header).number {
        TimedRewind(g, Lower(g, s), n);
      }
    }
  }
}
