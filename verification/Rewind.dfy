/** Rewinding: the search for a block whose state is available. */
module Rewind {
  import opened Common
  import opened ChainDb
  import opened Forks

  const FULL_IMMUTABILITY_THRESHOLD := 90000

  /** The outcome of the search; Crash is the dereference of a missing parent header. */
  datatype Rewound = Rewound(header: Header, rootNumber: nat) | Crash

  ghost predicate CarriesRoot(headers: map<Hash, Header>, h: Header, root: Hash, m: nat)
    requires Linked(headers)
  {
    AncestorAt(headers, h.hash, m) != ZERO && headers[AncestorAt(headers, h.hash, m)].root == root
  }

  /** At height `n` the requested root has been passed (or none was requested). */
  ghost predicate Crossed(headers: map<Hash, Header>, h: Header, root: Hash, n: nat)
    requires Linked(headers)
  {
    root == ZERO || exists m: nat :: n <= m && CarriesRoot(headers, h, root, m)
  }

  /** The block at height `n` could not be used: once the root is crossed, its state is missing. */
  ghost predicate Passed(headers: map<Hash, Header>, states: set<Hash>, h: Header, root: Hash, n: nat)
    requires Linked(headers)
  {
    var a := AncestorAt(headers, h.hash, n);
    a != ZERO && headers[a].parent in headers && (Crossed(headers, h, root, n) ==> headers[a].root !in states)
  }

  lemma {:induction false} CrossedStep(headers: map<Hash, Header>, h: Header, root: Hash, n: nat)
    requires Linked(headers)
    ensures Crossed(headers, h, root, n) <==> Crossed(headers, h, root, n + 1) || CarriesRoot(headers, h, root, n)
  {
  }

  // ---- Where a search ends ---------------------------------------------------------------

  /** What a search works with: the states at hand and how far down it looks. In the path scheme
      some states can also be rolled back to. */
  datatype Search =
    | HashSearch(states: set<Hash>, limit: nat)
    | PathSearch(states: set<Hash>, recoverable: set<Hash>, pivot: Option<nat>)

  /** The path scheme gives a root up that is neither at hand nor recoverable, from the first block
      with a state on. */
  ghost predicate GivenUp(headers: map<Hash, Header>, s: Search, h: Header, root: Hash, n: nat)
    requires Linked(headers) && s.PathSearch?
  {
    root !in s.states + s.recoverable
    && exists m: nat :: n <= m && AncestorAt(headers, h.hash, m) != ZERO && headers[AncestorAt(headers, h.hash, m)].root in s.states
  }

  /** The block at height `n` of the line of `h` can become the head: the search gets that far,
      the requested root is behind, and the state is there or can be recovered. Height 0 is only
      looked at by a search that starts there. */
  ghost predicate Candidate(headers: map<Hash, Header>, s: Search, h: Header, root: Hash, n: nat)
    requires Linked(headers)
  {
    var a := AncestorAt(headers, h.hash, n);
    && (n > 0 || n == h.number) && a != ZERO
    && match s
       case HashSearch(states, limit) => limit <= n && headers[a].root in states && Crossed(headers, h, root, n)
       case PathSearch(states, recoverable, pivot) =>
         && (pivot.None? || pivot.value <= n || n == h.number)
         && headers[a].root in states + recoverable
         && (Crossed(headers, h, root, n) || GivenUp(headers, s, h, root, n))
  }

  /** The highest candidate at or below height `n`. */
  ghost function Highest(headers: map<Hash, Header>, s: Search, h: Header, root: Hash, n: nat): (r: Option<nat>)
    requires Linked(headers)
    ensures r.Some? ==> r.value <= n && Candidate(headers, s, h, root, r.value)
    ensures forall m: nat | m <= n && (r.Some? ==> r.value < m) :: !Candidate(headers, s, h, root, m)
  {
    if Candidate(headers, s, h, root, n) then Some(n) else if n == 0 then None else Highest(headers, s, h, root, n - 1)
  }

  /** The search meets the requested root at height `n`: it looks that far down and has not given the
      root up before. */
  ghost predicate MeetsRoot(headers: map<Hash, Header>, s: Search, h: Header, root: Hash, n: nat)
    requires Linked(headers)
  {
    && root != ZERO && CarriesRoot(headers, h, root, n)
    && match s
       case HashSearch(_, limit) => limit <= n + 1 || n == h.number
       case PathSearch(_, _, pivot) => (pivot.None? || pivot.value <= n || n == h.number) && !GivenUp(headers, s, h, root, n + 1)
  }

  /** The highest height at or below `n` where the search meets the root, or 0. */
  ghost function RootMet(headers: map<Hash, Header>, s: Search, h: Header, root: Hash, n: nat): nat
    requires Linked(headers)
  {
    if n == 0 || MeetsRoot(headers, s, h, root, n) then n else RootMet(headers, s, h, root, n - 1)
  }

  /** The roots that the path database succeeds in rolling back to, with the states that are left then. */
  type Recovery = map<Hash, set<Hash>>

  function Recovered(recover: Recovery, root: Hash): Option<set<Hash>> {
    if root in recover then Some(recover[root] + {root}) else None
  }

  /** Where a search ends: the block, the states at hand then, and the height where the requested root
      was met. */
  datatype Landing = Landing(header: Header, states: set<Hash>, rootNumber: nat)

  /** A search from `h` ends at the highest candidate, or at genesis when there is none or its state
      could not be recovered. */
  ghost function Land(headers: map<Hash, Header>, s: Search, recover: Recovery, genesis: Header, h: Header, root: Hash): Landing
    requires Linked(headers)
  {
    var met := RootMet(headers, s, h, root, h.number);
    match Highest(headers, s, h, root, h.number)
    case None => Landing(genesis, s.states, met)
    case Some(n) =>
      var b := headers[AncestorAt(headers, h.hash, n)];
      if b.root in s.states then Landing(b, s.states, met)
      else if Recovered(recover, b.root).Some? then Landing(b, Recovered(recover, b.root).value, met)
      else Landing(genesis, s.states, met)
  }

  /** The search ends there; a block of height 0 counts as genesis. */
  ghost predicate EndsAt(headers: map<Hash, Header>, s: Search, recover: Recovery, genesis: Header, h: Header, root: Hash, l: Landing)
    requires Linked(headers)
  {
    var t := Land(headers, s, recover, genesis, h, root);
    && l.states == t.states && l.rootNumber == t.rootNumber
    && (l.header == t.header || l.header.number == t.header.number == 0)
  }

  lemma {:induction false} HighestIs(headers: map<Hash, Header>, s: Search, h: Header, root: Hash, n: nat)
    requires Linked(headers) && n <= h.number && Candidate(headers, s, h, root, n)
    requires forall m: nat | n < m <= h.number :: !Candidate(headers, s, h, root, m)
    ensures Highest(headers, s, h, root, h.number) == Some(n)
  {
  }

  lemma {:induction false} NoneIs(headers: map<Hash, Header>, s: Search, h: Header, root: Hash)
    requires Linked(headers)
    requires forall m: nat | m <= h.number :: !Candidate(headers, s, h, root, m)
    ensures Highest(headers, s, h, root, h.number) == None
  {
  }

  /** The line of `h` ends, above height 0 and within the search limit, at a block that has
      its state, before the requested root was met. */
  ghost predicate FallsOff(headers: map<Hash, Header>, states: set<Hash>, h: Header, root: Hash, limit: nat)
    requires Linked(headers)
  {
    exists n: nat ::
      && 0 < n && limit <= n
      && AncestorAt(headers, h.hash, n) != ZERO
      && headers[AncestorAt(headers, h.hash, n)].parent !in headers
      && headers[AncestorAt(headers, h.hash, n)].root in states
      && !Crossed(headers, h, root, n)
  }

  function SearchLimit(pivot: Option<nat>, h: Header): nat {
    match pivot
    case Some(p) => p
    case None => if h.number > FULL_IMMUTABILITY_THRESHOLD then h.number - FULL_IMMUTABILITY_THRESHOLD else 0
  }

  lemma {:induction false} StepDown(headers: map<Hash, Header>, h: Header, cur: Header)
    requires Linked(headers) && Stored(headers, h) && Stored(headers, cur) && OnLine(headers, cur, h.hash)
    ensures cur.parent in headers ==>
              var p := headers[cur.parent];
              Stored(headers, p) && p.number + 1 == cur.number && OnLine(headers, p, h.hash)
    ensures cur.parent !in headers ==> forall n: nat | n < cur.number :: AncestorAt(headers, h.hash, n) == ZERO
  {
    if cur.parent in headers {
      AncestorTransitive(headers, h.hash, cur.number, cur.number - 1);
    } else {
      forall n: nat | n < cur.number ensures AncestorAt(headers, h.hash, n) == ZERO {
        AncestorTransitive(headers, h.hash, cur.number, n);
      }
    }
  }

  /** A search that stops at `head` for any of these reasons does not fall off the chain. */
  lemma {:induction false} StaysOn(headers: map<Hash, Header>, states: set<Hash>, h: Header, root: Hash, limit: nat, head: Header)
    requires Linked(headers) && Stored(headers, h) && OnLine(headers, head, h.hash)
    requires forall n: nat | head.number < n <= h.number :: Passed(headers, states, h, root, n)
    requires
      || head.number < limit
      || head.number == 0
      || Crossed(headers, h, root, head.number)
      || (head.root !in states && head.parent !in headers && Stored(headers, head))
    ensures !FallsOff(headers, states, h, root, limit)
  {
    forall n: nat | 0 < n && limit <= n && AncestorAt(headers, h.hash, n) != ZERO
      ensures var a := headers[AncestorAt(headers, h.hash, n)];
              a.parent in headers || a.root !in states || Crossed(headers, h, root, n)
    {
      if n > head.number {
        assert Passed(headers, states, h, root, n);
      } else if n < head.number && head.parent !in headers && Stored(headers, head) {
        StepDown(headers, h, head);
      }
    }
  }

  /** The search looks no further down than `head`. */
  ghost predicate Bottom(headers: map<Hash, Header>, s: Search, head: Header) {
    || head.number == 0 || head.parent !in headers
    || (s.HashSearch? && head.number < s.limit) || (s.PathSearch? && s.pivot.Some? && head.number <= s.pivot.value)
  }

  /** Nothing was found down to `head`, and there is nothing to find below. */
  lemma {:induction false} NothingFound(headers: map<Hash, Header>, s: Search, h: Header, root: Hash, head: Header)
    requires Linked(headers) && Stored(headers, h) && Stored(headers, head) && OnLine(headers, head, h.hash)
    requires forall n: nat | head.number <= n <= h.number :: !Candidate(headers, s, h, root, n)
    requires Bottom(headers, s, head)
    ensures Highest(headers, s, h, root, h.number) == None
  {
    forall n: nat | n <= h.number ensures !Candidate(headers, s, h, root, n) {
      if n < head.number {
        StepDown(headers, h, head);
      }
    }
    NoneIs(headers, s, h, root);
  }

  /** Above `low` the search met the root first at `met`; 0 stands for nowhere. */
  ghost predicate Noted(headers: map<Hash, Header>, s: Search, h: Header, root: Hash, low: int, met: nat)
    requires Linked(headers)
  {
    && (met != 0 ==> low < met <= h.number && MeetsRoot(headers, s, h, root, met))
    && (forall n: nat | low < n <= h.number && met < n :: !MeetsRoot(headers, s, h, root, n))
  }

  lemma {:induction false} RootMetIs(headers: map<Hash, Header>, s: Search, h: Header, root: Hash, n: nat, met: nat)
    requires Linked(headers) && met <= n && (met != 0 ==> MeetsRoot(headers, s, h, root, met))
    requires forall m: nat | met < m <= n :: !MeetsRoot(headers, s, h, root, m)
    ensures RootMet(headers, s, h, root, n) == met
  {
    if n > met {
      RootMetIs(headers, s, h, root, n - 1, met);
    }
  }

  /** What was noted down to `head` is the result when the search looks no further, or would not note
      anything further. */
  lemma {:induction false} NotedAll(headers: map<Hash, Header>, s: Search, h: Header, root: Hash, head: Header, met: nat)
    requires Linked(headers) && Stored(headers, h) && Stored(headers, head) && OnLine(headers, head, h.hash)
    requires Noted(headers, s, h, root, head.number - 1, met)
    requires met != 0 || root == ZERO || Bottom(headers, s, head) || (s.PathSearch? && GivenUp(headers, s, h, root, head.number))
    ensures RootMet(headers, s, h, root, h.number) == met
  {
    forall n: nat | met < n <= h.number ensures !MeetsRoot(headers, s, h, root, n) {
      if n < head.number {
        StepDown(headers, h, head);
      }
    }
    RootMetIs(headers, s, h, root, h.number, met);
  }

  /** The search gets to look at `head`. */
  ghost predicate Looked(s: Search, h: Header, head: Header) {
    || head == h
    || match s
       case HashSearch(_, limit) => limit <= head.number + 1
       case PathSearch(_, _, pivot) => pivot.None? || pivot.value <= head.number
  }

  /** A look at `head` notes its number if the root is met there for the first time. */
  lemma {:induction false} NotesHead(headers: map<Hash, Header>, s: Search, h: Header, root: Hash, head: Header, met: nat, behind: bool)
    requires Linked(headers) && Stored(headers, h) && Stored(headers, head) && OnLine(headers, head, h.hash)
    requires Noted(headers, s, h, root, head.number, met) && Looked(s, h, head)
    requires behind <==> Crossed(headers, h, root, head.number + 1) || (s.PathSearch? && GivenUp(headers, s, h, root, head.number + 1))
    requires behind && root != ZERO && met == 0 ==> s.PathSearch? && GivenUp(headers, s, h, root, head.number + 1)
    ensures Noted(headers, s, h, root, head.number - 1, if !behind && head.root == root then head.number else met)
  {
    assert head.root == root <==> CarriesRoot(headers, h, root, head.number);
  }

  lemma {:induction false} PassedOver(headers: map<Hash, Header>, states: set<Hash>, limit: nat, h: Header, root: Hash, n: nat)
    requires Linked(headers) && Passed(headers, states, h, root, n)
    ensures !Candidate(headers, HashSearch(states, limit), h, root, n)
  {
  }

  /** A search of the hash scheme that passed over everything above `head` and stops there, for any of
      its reasons, does not fall off and ends at `header`. */
  lemma {:induction false} HashEnds(headers: map<Hash, Header>, states: set<Hash>, limit: nat, recover: Recovery, genesis: Header,
                                    h: Header, root: Hash, head: Header, header: Header, met: nat)
    requires Linked(headers) && Stored(headers, h) && Stored(headers, head) && OnLine(headers, head, h.hash) && genesis.number == 0
    requires forall n: nat | head.number < n <= h.number :: Passed(headers, states, h, root, n)
    requires Noted(headers, HashSearch(states, limit), h, root, if head.number == 0 && head != h then 0 else head.number - 1, met)
    requires || (head.number < limit && header.number == 0)
             || (head.number == 0 && head != h && header.number == 0)
             || (head.root !in states && head.parent !in headers && header.number == 0)
             || (limit <= head.number && head.root in states && header == head && (Crossed(headers, h, root, head.number) || head.number == 0)
                 && (met != 0 || root == ZERO || head.number == 0))
    ensures !FallsOff(headers, states, h, root, limit)
    ensures EndsAt(headers, HashSearch(states, limit), recover, genesis, h, root, Landing(header, states, met))
  {
    var s := HashSearch(states, limit);
    StaysOn(headers, states, h, root, limit, head);
    assert Noted(headers, s, h, root, head.number - 1, met);
    NotedAll(headers, s, h, root, head, met);
    forall n: nat | head.number < n <= h.number ensures !Candidate(headers, s, h, root, n) {
      PassedOver(headers, states, limit, h, root, n);
    }
    if Candidate(headers, s, h, root, head.number) {
      HighestIs(headers, s, h, root, head.number);
    } else {
      NothingFound(headers, s, h, root, head);
    }
  }

  /** The search leaves the requested root behind at height `m`: its highest occurrence, or the start when
      no root was requested. At or below `m`, the highest of these states on the line is that of height `n`. */
  ghost predicate Nearest(headers: map<Hash, Header>, states: set<Hash>, h: Header, root: Hash, m: nat, n: nat)
    requires Linked(headers)
  {
    && 0 < n <= m <= h.number
    && (if root == ZERO then m == h.number else CarriesRoot(headers, h, root, m) && forall k: nat | m < k <= h.number :: !CarriesRoot(headers, h, root, k))
    && AncestorAt(headers, h.hash, n) != ZERO && headers[AncestorAt(headers, h.hash, n)].root in states
    && forall k: nat | n < k <= m && AncestorAt(headers, h.hash, k) != ZERO :: headers[AncestorAt(headers, h.hash, k)].root !in states
  }

  lemma {:induction false} NearestIsCrossed(headers: map<Hash, Header>, states: set<Hash>, h: Header, root: Hash, m: nat, n: nat, k: nat)
    requires Linked(headers) && Stored(headers, h) && Nearest(headers, states, h, root, m, n) && k <= h.number
    ensures Crossed(headers, h, root, k) <==> k <= m
  {
    if root != ZERO && k > m {
      forall x: nat | k <= x ensures !CarriesRoot(headers, h, root, x) {
      }
    }
  }

  /** The highest block of the line with the requested root is at height `m`; 0 stands for none as well. */
  ghost predicate TopRoot(headers: map<Hash, Header>, h: Header, root: Hash, m: nat)
    requires Linked(headers)
  {
    && root != ZERO && m <= h.number && (m > 0 ==> CarriesRoot(headers, h, root, m))
    && forall k: nat | m < k <= h.number :: !CarriesRoot(headers, h, root, k)
  }

  /** The height reported is that of the highest block with the root, if the search looks that far: the hash
      scheme to one block below its limit, the path scheme, for a root that is there or recoverable, to the
      pivot. */
  lemma {:induction false} ReportsTopRoot(headers: map<Hash, Header>, s: Search, pivot: Option<nat>, h: Header, root: Hash, m: nat)
    requires Linked(headers) && Stored(headers, h) && TopRoot(headers, h, root, m)
    requires if s.HashSearch? then s.limit == SearchLimit(pivot, h) else s.pivot == pivot && root in s.states + s.recoverable
    ensures RootMet(headers, s, h, root, h.number)
            == if m == h.number || (if s.PathSearch? then pivot.None? || pivot.value <= m
                                    else if pivot.None? then h.number <= m + 90001 else pivot.value <= m + 1) then m else 0
  {
    if MeetsRoot(headers, s, h, root, m) {
      RootMetIs(headers, s, h, root, h.number, m);
    } else {
      forall k: nat | 0 < k <= h.number ensures !MeetsRoot(headers, s, h, root, k) {
      }
      RootMetIs(headers, s, h, root, h.number, 0);
    }
  }

  /** The hash scheme finds that state if it is at most 90000 blocks below the start, or not below the pivot
      when there is one; otherwise it ends at genesis. It does not fall off. */
  lemma {:induction false} NearestFound(headers: map<Hash, Header>, states: set<Hash>, recover: Recovery, genesis: Header, pivot: Option<nat>,
                                        h: Header, root: Hash, m: nat, n: nat)
    requires Linked(headers) && Stored(headers, h) && genesis.number == 0 && Nearest(headers, states, h, root, m, n)
    ensures !FallsOff(headers, states, h, root, SearchLimit(pivot, h))
    ensures Land(headers, HashSearch(states, SearchLimit(pivot, h)), recover, genesis, h, root).header
            == if (if pivot.None? then h.number <= n + 90000 else pivot.value <= n) then headers[AncestorAt(headers, h.hash, n)] else genesis
  {
    var s := HashSearch(states, SearchLimit(pivot, h));
    forall k: nat | k <= h.number ensures Crossed(headers, h, root, k) <==> k <= m {
      NearestIsCrossed(headers, states, h, root, m, n, k);
    }
    forall k: nat | m < k && AncestorAt(headers, h.hash, k) != ZERO ensures headers[AncestorAt(headers, h.hash, k)].parent in headers {
      AncestorTransitive(headers, h.hash, k, n);
    }
    if Candidate(headers, s, h, root, n) {
      HighestIs(headers, s, h, root, n);
    } else {
      NoneIs(headers, s, h, root);
    }
  }

  /** The path scheme, without a pivot above it, finds the highest state at or below the root that is there or
      can be recovered. */
  lemma {:induction false} NearestInPath(headers: map<Hash, Header>, states: set<Hash>, recoverable: set<Hash>, recover: Recovery, genesis: Header,
                                         pivot: Option<nat>, h: Header, root: Hash, m: nat, n: nat)
    requires Linked(headers) && Stored(headers, h) && Nearest(headers, states + recoverable, h, root, m, n)
    requires (pivot.None? || pivot.value <= n) && (root == ZERO || root in states + recoverable)
    ensures var b := headers[AncestorAt(headers, h.hash, n)];
            Land(headers, PathSearch(states, recoverable, pivot), recover, genesis, h, root).header
            == if b.root in states || b.root in recover then b else genesis
  {
    var s := PathSearch(states, recoverable, pivot);
    forall k: nat | k <= h.number ensures Crossed(headers, h, root, k) <==> k <= m {
      NearestIsCrossed(headers, states + recoverable, h, root, m, n, k);
    }
    HighestIs(headers, s, h, root, n);
  }

  /** A root that is neither at hand nor recoverable is given up at the first block whose state is at hand,
      if it was not met before; recoverable states above are passed over. */
  lemma {:induction false} GivesUpAt(headers: map<Hash, Header>, states: set<Hash>, recoverable: set<Hash>, recover: Recovery, genesis: Header,
                                     pivot: Option<nat>, h: Header, root: Hash, n: nat)
    requires Linked(headers) && Stored(headers, h) && root != ZERO && root !in states + recoverable && (pivot.None? || pivot.value <= n)
    requires 0 < n <= h.number && AncestorAt(headers, h.hash, n) != ZERO && headers[AncestorAt(headers, h.hash, n)].root in states
    requires forall k: nat | n < k <= h.number && AncestorAt(headers, h.hash, k) != ZERO ::
               headers[AncestorAt(headers, h.hash, k)].root !in states && headers[AncestorAt(headers, h.hash, k)].root != root
    ensures Land(headers, PathSearch(states, recoverable, pivot), recover, genesis, h, root)
            == Landing(headers[AncestorAt(headers, h.hash, n)], states, 0)
  {
    var s := PathSearch(states, recoverable, pivot);
    assert GivenUp(headers, s, h, root, n);
    forall k: nat | n < k <= h.number ensures !Candidate(headers, s, h, root, k) && !MeetsRoot(headers, s, h, root, k) {
    }
    HighestIs(headers, s, h, root, n);
    forall k: nat | 0 < k <= h.number ensures !MeetsRoot(headers, s, h, root, k) {
      if k < n {
        assert GivenUp(headers, s, h, root, k + 1);
      }
    }
    RootMetIs(headers, s, h, root, h.number, 0);
  }

  /** The rewind of the hash scheme. It falls off the chain in exactly one case; otherwise it ends at
      the highest block from the search limit up, and at or below the requested root, that has its
      state, and at height 0 if and only if there is none. */
  method RewindHashHead(headers: map<Hash, Header>, states: set<Hash>, genesis: Header, pivot: Option<nat>, start: Header, root: Hash,
                        ghost recover: Recovery)
    returns (r: Rewound)
    requires Linked(headers) && Stored(headers, start) && genesis.number == 0
    ensures r.Crash? <==> FallsOff(headers, states, start, root, SearchLimit(pivot, start))
    ensures r.Rewound? ==> EndsAt(headers, HashSearch(states, SearchLimit(pivot, start)), recover, genesis, start, root,
                                  Landing(r.header, states, r.rootNumber))
    ensures r.Rewound? ==> r.header == genesis || (Stored(headers, r.header) && OnLine(headers, r.header, start.hash))
    ensures forall m: nat, n: nat | Nearest(headers, states, start, root, m, n) ::
              && r.Rewound?
              && if (if pivot.None? then start.number <= n + 90000 else pivot.value <= n) then r.header.hash == AncestorAt(headers, start.hash, n)
                 else r.header.number == 0
  {
    forall m: nat, n: nat | Nearest(headers, states, start, root, m, n)
      ensures !FallsOff(headers, states, start, root, SearchLimit(pivot, start))
      ensures Land(headers, HashSearch(states, SearchLimit(pivot, start)), recover, genesis, start, root).header
              == if (if pivot.None? then start.number <= n + 90000 else pivot.value <= n) then headers[AncestorAt(headers, start.hash, n)] else genesis
    {
      NearestFound(headers, states, recover, genesis, pivot, start, root, m, n);
    }
    var limit := SearchLimit(pivot, start);
    ghost var s := HashSearch(states, limit);
    var head, beyondRoot, rootNumber := start, root == ZERO, 0;
    while true
      invariant Stored(headers, head) && OnLine(headers, head, start.hash) && Looked(s, start, head)
      invariant beyondRoot <==> Crossed(headers, start, root, head.number + 1)
      invariant Noted(headers, s, start, root, head.number, rootNumber) && (beyondRoot && root != ZERO ==> rootNumber != 0)
      invariant forall n: nat | head.number < n <= start.number :: Passed(headers, states, start, root, n)
      decreases head.number
    {
      CrossedStep(headers, start, root, head.number);
      StepDown(headers, start, head);
      NotesHead(headers, s, start, root, head, rootNumber, beyondRoot);
      if !beyondRoot && head.root == root {
        beyondRoot, rootNumber := true, head.number;
      }
      if head.number < limit {
        HashEnds(headers, states, limit, recover, genesis, start, root, head, genesis, rootNumber);
        return Rewound(genesis, rootNumber);
      }
      if head.root !in states {
        if head.parent !in headers {
          HashEnds(headers, states, limit, recover, genesis, start, root, head, genesis, rootNumber);
          return Rewound(genesis, rootNumber);
        }
        head := headers[head.parent];
        if head.number == 0 {
          HashEnds(headers, states, limit, recover, genesis, start, root, head, head, rootNumber);
          return Rewound(head, rootNumber);
        }
      } else {
        if beyondRoot || head.number == 0 {
          HashEnds(headers, states, limit, recover, genesis, start, root, head, head, rootNumber);
          return Rewound(head, rootNumber);
        }
        if head.parent !in headers {
          return Crash;
        }
        head := headers[head.parent];
      }
    }
  }

  /** A chain that reaches height 0 is never fallen off. */
  lemma {:induction false} UngappedNeverCrashes(headers: map<Hash, Header>, states: set<Hash>, h: Header, root: Hash, limit: nat)
    requires Linked(headers) && Stored(headers, h) && AncestorAt(headers, h.hash, 0) != ZERO
    ensures !FallsOff(headers, states, h, root, limit)
  {
    forall n: nat | 0 < n && AncestorAt(headers, h.hash, n) != ZERO
      ensures headers[AncestorAt(headers, h.hash, n)].parent in headers
    {
      AncestorTransitive(headers, h.hash, n, 0);
    }
  }

  /** On the X Layer chain the first migrated block has no parent: with its state present and
      a root that the chain does not carry, the search falls off. */
  lemma {:induction false} GapCrashes()
    ensures var first := Header(Hash(2), ZERO, 5, 0, Hash(7));
            var headers := map[Hash(2) := first];
            Linked(headers) && FallsOff(headers, {Hash(7)}, first, Hash(8), 0)
  {
    var first := Header(Hash(2), ZERO, 5, 0, Hash(7));
    var headers := map[Hash(2) := first];
    assert AncestorAt(headers, first.hash, 5) == first.hash;
    forall m: nat ensures !CarriesRoot(headers, first, Hash(8), m) {
    }
  }

  lemma {:induction false} GivenUpStep(headers: map<Hash, Header>, s: Search, h: Header, root: Hash, n: nat)
    requires Linked(headers) && s.PathSearch?
    ensures GivenUp(headers, s, h, root, n) <==>
              || GivenUp(headers, s, h, root, n + 1)
              || (root !in s.states + s.recoverable && AncestorAt(headers, h.hash, n) != ZERO
                  && headers[AncestorAt(headers, h.hash, n)].root in s.states)
  {
  }

  /** One look of the path search at `head`: is the requested root behind, and is its number known now. */
  lemma {:induction false} LooksAt(headers: map<Hash, Header>, s: Search, h: Header, root: Hash, head: Header)
    requires Linked(headers) && s.PathSearch? && Stored(headers, h) && Stored(headers, head) && OnLine(headers, head, h.hash)
    ensures var behind := Crossed(headers, h, root, head.number + 1) || GivenUp(headers, s, h, root, head.number + 1);
            var now := behind || head.root == root || (root !in s.states + s.recoverable && head.root in s.states);
            && (now <==> Crossed(headers, h, root, head.number) || GivenUp(headers, s, h, root, head.number))
            && (head.number > 0 || head == h ==>
                  (Candidate(headers, s, h, root, head.number) <==>
                     now && head.root in s.states + s.recoverable && (s.pivot.None? || s.pivot.value <= head.number || head == h)))
  {
    CrossedStep(headers, h, root, head.number);
    GivenUpStep(headers, s, h, root, head.number);
  }

  /** The search of the path scheme: the highest block it may use, if there is one. */
  method SearchPath(headers: map<Hash, Header>, states: set<Hash>, recoverable: set<Hash>, genesis: Header, pivot: Option<nat>,
                    start: Header, root: Hash)
    returns (found: bool, head: Header, rootNumber: nat)
    requires Linked(headers) && Stored(headers, start) && genesis.number == 0
    ensures found ==> Stored(headers, head) && OnLine(headers, head, start.hash)
                      && Highest(headers, PathSearch(states, recoverable, pivot), start, root, start.number) == Some(head.number)
    ensures !found ==> head.number == 0 && (head == genesis || (Stored(headers, head) && OnLine(headers, head, start.hash)))
                       && Highest(headers, PathSearch(states, recoverable, pivot), start, root, start.number) == None
    ensures rootNumber == RootMet(headers, PathSearch(states, recoverable, pivot), start, root, start.number)
  {
    ghost var s := PathSearch(states, recoverable, pivot);
    var beyondRoot := root == ZERO;
    var noState := root !in states && root !in recoverable;
    head, rootNumber := start, 0;
    while true
      invariant Stored(headers, head) && OnLine(headers, head, start.hash) && (head == start || head.number > 0) && Looked(s, start, head)
      invariant beyondRoot <==> Crossed(headers, start, root, head.number + 1) || GivenUp(headers, s, start, root, head.number + 1)
      invariant Noted(headers, s, start, root, head.number, rootNumber)
      invariant beyondRoot && root != ZERO && rootNumber == 0 ==> GivenUp(headers, s, start, root, head.number + 1)
      invariant forall n: nat | head.number < n <= start.number :: !Candidate(headers, s, start, root, n)
      decreases head.number
    {
      LooksAt(headers, s, start, root, head);
      StepDown(headers, start, head);
      NotesHead(headers, s, start, root, head, rootNumber, beyondRoot);
      if !beyondRoot && head.root == root {
        beyondRoot, rootNumber := true, head.number;
      }
      if !beyondRoot && noState && head.root in states {
        beyondRoot := true;
      }
      if beyondRoot && (head.root in states || head.root in recoverable) {
        HighestIs(headers, s, start, root, head.number);
        NotedAll(headers, s, start, root, head, rootNumber);
        return true, head, rootNumber;
      }
      if (pivot.Some? && pivot.value >= head.number) || head.parent !in headers {
        NothingFound(headers, s, start, root, head);
        NotedAll(headers, s, start, root, head, rootNumber);
        return false, genesis, rootNumber;
      }
      head := headers[head.parent];
      if head.number == 0 {
        NothingFound(headers, s, start, root, head);
        assert Noted(headers, s, start, root, head.number - 1, rootNumber);
        NotedAll(headers, s, start, root, head, rootNumber);
        return false, head, rootNumber;
      }
    }
  }

  /** The rewind of the path scheme; `recoverable` are the roots that can be rolled back to. It ends
      at the highest block from the pivot up, or the first one looked at, that is behind the requested
      root and whose state is there or recovered; at height 0 if and only if there is none or the
      recovery fails. */
  method RewindPathHead(headers: map<Hash, Header>, states: set<Hash>, recoverable: set<Hash>, recover: Recovery,
                        genesis: Header, pivot: Option<nat>, start: Header, root: Hash)
    returns (header: Header, rootNumber: nat, available: set<Hash>)
    requires Linked(headers) && Stored(headers, start) && genesis.number == 0
    ensures EndsAt(headers, PathSearch(states, recoverable, pivot), recover, genesis, start, root, Landing(header, available, rootNumber))
    ensures header == genesis || (Stored(headers, header) && OnLine(headers, header, start.hash))
  {
    var found;
    found, header, rootNumber := SearchPath(headers, states, recoverable, genesis, pivot, start, root);
    available := states;
    if found && header.root !in states {
      var r := Recovered(recover, header.root);
      if r.None? {
        return genesis, rootNumber, states;
      }
      available := r.value;
    }
  }
}
