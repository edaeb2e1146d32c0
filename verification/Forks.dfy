/** Where two lines of headers part: the search for the common ancestor that a chain
    reorganisation starts from. */
module Forks {
  import opened ChainDb

  ghost predicate Stored(headers: map<Hash, Header>, h: Header) {
    h.hash in headers && headers[h.hash] == h
  }

  /** `chain` leads from `top` down to just above `bottom`, parent by parent. */
  ghost predicate Segment(headers: map<Hash, Header>, top: Header, chain: seq<Header>, bottom: Header) {
    && Stored(headers, top)
    && Stored(headers, bottom)
    && (forall i | 0 <= i < |chain| :: Stored(headers, chain[i]))
    && (if chain == [] then top == bottom else chain[0] == top && chain[|chain| - 1].parent == bottom.hash)
    && (forall i | 0 < i < |chain| :: chain[i - 1].parent == chain[i].hash)
  }

  lemma {:induction false} SegmentTail(headers: map<Hash, Header>, top: Header, chain: seq<Header>, bottom: Header)
    requires Segment(headers, top, chain, bottom) && chain != []
    ensures Segment(headers, if |chain| == 1 then bottom else chain[1], chain[1..], bottom)
    ensures top.parent in headers && headers[top.parent] == if |chain| == 1 then bottom else chain[1]
  {
  }

  lemma {:induction false} SegmentExtend(headers: map<Hash, Header>, top: Header, chain: seq<Header>, bottom: Header)
    requires Segment(headers, top, chain, bottom) && Linked(headers) && bottom.parent in headers
    ensures Segment(headers, top, chain + [bottom], headers[bottom.parent])
  {
  }

  lemma {:induction false} SegmentNumbers(headers: map<Hash, Header>, top: Header, chain: seq<Header>, bottom: Header)
    requires Linked(headers) && Segment(headers, top, chain, bottom)
    ensures bottom.number + |chain| == top.number
    ensures forall i | 0 <= i < |chain| :: chain[i].number + i == top.number
    decreases |chain|
  {
    if chain != [] {
      SegmentTail(headers, top, chain, bottom);
      SegmentNumbers(headers, headers[top.parent], chain[1..], bottom);
      assert forall i | 1 <= i < |chain| :: chain[i] == chain[1..][i - 1];
    }
  }

  /** Below a segment the two ends have the same ancestors, and the segment is the line. */
  lemma {:induction false} SegmentAncestors(headers: map<Hash, Header>, top: Header, chain: seq<Header>, bottom: Header, n: nat)
    requires Linked(headers) && Segment(headers, top, chain, bottom) && n <= top.number
    ensures n <= bottom.number ==> AncestorAt(headers, top.hash, n) == AncestorAt(headers, bottom.hash, n)
    ensures n > bottom.number ==>
              && 0 <= top.number - n < |chain|
              && AncestorAt(headers, top.hash, n) == chain[top.number - n].hash
    decreases |chain|
  {
    if chain != [] {
      SegmentNumbers(headers, top, chain, bottom);
      if n < top.number {
        SegmentTail(headers, top, chain, bottom);
        SegmentAncestors(headers, headers[top.parent], chain[1..], bottom, n);
      }
    }
  }

  /** The lookups that the blocks of a segment write. */
  ghost function SegmentLookups(bodies: map<Hash, seq<TxHash>>, chain: seq<Header>): map<TxHash, nat> {
    if chain == [] then map[]
    else SegmentLookups(bodies, chain[1..]) + BlockLookups(BodyOf(bodies, chain[0].hash), chain[0].number)
  }

  lemma {:induction false} OverlayAssociative(a: map<TxHash, nat>, b: map<TxHash, nat>, c: map<TxHash, nat>)
    ensures a + b + c == a + (b + c)
  {
  }

  /** A line's lookups are those below the segment overlaid with those of the segment. */
  lemma {:induction false} LookupsSplit(db: Db, top: Header, chain: seq<Header>, bottom: Header, base: nat)
    requires Linked(db.headers) && Segment(db.headers, top, chain, bottom) && base <= bottom.number
    ensures LineLookups(db.headers, db.bodies, top.hash, base)
            == LineLookups(db.headers, db.bodies, bottom.hash, base) + SegmentLookups(db.bodies, chain)
    decreases |chain|
  {
    if chain != [] {
      SegmentNumbers(db.headers, top, chain, bottom);
      SegmentTail(db.headers, top, chain, bottom);
      LookupsSplit(db, db.headers[top.parent], chain[1..], bottom, base);
      OverlayAssociative(LineLookups(db.headers, db.bodies, bottom.hash, base), SegmentLookups(db.bodies, chain[1..]),
                         BlockLookups(BodyOf(db.bodies, top.hash), top.number));
    } else {
      assert LineLookups(db.headers, db.bodies, top.hash, base) + map[] == LineLookups(db.headers, db.bodies, top.hash, base);
    }
  }

  /** When transactions are distinct along a line, a segment shares none with what is below. */
  lemma {:induction false} DistinctSplit(db: Db, top: Header, chain: seq<Header>, bottom: Header, base: nat)
    requires Linked(db.headers) && Segment(db.headers, top, chain, bottom) && base <= bottom.number
    requires DistinctTxs(db.headers, db.bodies, top.hash, base)
    ensures SegmentLookups(db.bodies, chain).Keys !! LineLookups(db.headers, db.bodies, bottom.hash, base).Keys
    decreases |chain|
  {
    if chain != [] {
      SegmentNumbers(db.headers, top, chain, bottom);
      SegmentTail(db.headers, top, chain, bottom);
      DistinctSplit(db, db.headers[top.parent], chain[1..], bottom, base);
      LookupsSplit(db, db.headers[top.parent], chain[1..], bottom, base);
    }
  }

  // ---- The fork --------------------------------------------------------------------

  /** `a` is an ancestor-or-self of `h`. */
  ghost predicate OnLine(headers: map<Hash, Header>, a: Header, h: Hash)
    requires Linked(headers)
  {
    a.hash != ZERO && AncestorAt(headers, h, a.number) == a.hash
  }

  /** The two lines share a header. */
  ghost predicate Meets(headers: map<Hash, Header>, a: Hash, b: Hash)
    requires Linked(headers)
  {
    exists n: nat :: AncestorAt(headers, a, n) != ZERO && AncestorAt(headers, a, n) == AncestorAt(headers, b, n)
  }

  /** The headers of the line of `h` that are not on the line of `other`, highest first. */
  ghost function ForkOf(headers: map<Hash, Header>, h: Header, other: Hash): seq<Header>
    requires Linked(headers) && Stored(headers, h)
    decreases h.number
  {
    if OnLine(headers, h, other) then []
    else if h.parent !in headers then [h]
    else [h] + ForkOf(headers, headers[h.parent], other)
  }

  lemma {:induction false} SegmentIsFork(headers: map<Hash, Header>, top: Header, chain: seq<Header>, bottom: Header, other: Hash)
    requires Linked(headers) && Segment(headers, top, chain, bottom)
    requires forall i | 0 <= i < |chain| :: !OnLine(headers, chain[i], other)
    requires OnLine(headers, bottom, other)
    ensures ForkOf(headers, top, other) == chain
    decreases |chain|
  {
    if chain != [] {
      assert chain[0] == top;
      SegmentTail(headers, top, chain, bottom);
      SegmentIsFork(headers, headers[top.parent], chain[1..], bottom, other);
      assert chain == [top] + chain[1..];
    }
  }

  /** No header of a fork is on the other line. */
  lemma {:induction false} ForkApart(headers: map<Hash, Header>, h: Header, other: Hash, i: nat)
    requires Linked(headers) && Stored(headers, h) && i < |ForkOf(headers, h, other)|
    ensures !OnLine(headers, ForkOf(headers, h, other)[i], other)
    decreases i
  {
    if i > 0 {
      ForkApart(headers, headers[h.parent], other, i - 1);
    }
  }

  /** What is left of a segment below its first `k` headers. */
  lemma {:induction false} SegmentSuffix(headers: map<Hash, Header>, top: Header, chain: seq<Header>, bottom: Header, k: nat)
    requires Segment(headers, top, chain, bottom) && k <= |chain|
    ensures Segment(headers, if k < |chain| then chain[k] else bottom, chain[k..], bottom)
  {
  }

  datatype ForkResult =
    | Fork(oldChain: seq<Header>, newChain: seq<Header>, common: Header)
    | OldParentMissing
    | NewParentMissing

  /** The state of the search: both cursors have been walked down from the heads, and no
      header passed on either side is on the other line. */
  ghost predicate Searching(headers: map<Hash, Header>, top: Header, chain: seq<Header>, cur: Header, other: Hash)
    requires Linked(headers)
  {
    && Segment(headers, top, chain, cur)
    && (forall i | 0 <= i < |chain| :: !OnLine(headers, chain[i], other))
  }

  /** A line that left the store at `cur` without meeting the other never meets it. */
  lemma {:induction false} DeadEnd(headers: map<Hash, Header>, top: Header, chain: seq<Header>, cur: Header, other: Hash)
    requires Linked(headers) && Searching(headers, top, chain, cur, other)
    requires !OnLine(headers, cur, other) && cur.parent !in headers
    ensures !Meets(headers, top.hash, other)
  {
    forall n: nat | AncestorAt(headers, top.hash, n) != ZERO
      ensures AncestorAt(headers, top.hash, n) != AncestorAt(headers, other, n)
    {
      SegmentAncestors(headers, top, chain, cur, n);
      if n > cur.number {
        assert !OnLine(headers, chain[top.number - n], other);
      }
    }
  }

  lemma {:induction false} MeetsSymmetric(headers: map<Hash, Header>, a: Hash, b: Hash)
    requires Linked(headers)
    ensures Meets(headers, a, b) <==> Meets(headers, b, a)
  {
  }

  method FindForkLevel(headers: map<Hash, Header>, oldHead: Header, newHead: Header,
                       oldStart: seq<Header>, newStart: seq<Header>, oldLevel: Header, newLevel: Header) returns (r: ForkResult)
    requires Linked(headers) && oldLevel.number == newLevel.number
    requires Searching(headers, oldHead, oldStart, oldLevel, newHead.hash)
    requires Searching(headers, newHead, newStart, newLevel, oldHead.hash)
    ensures r.Fork? <==> Meets(headers, oldHead.hash, newHead.hash)
    ensures r.Fork? ==>
              && r.oldChain == ForkOf(headers, oldHead, newHead.hash)
              && r.newChain == ForkOf(headers, newHead, oldHead.hash)
              && Segment(headers, oldHead, r.oldChain, r.common)
              && Segment(headers, newHead, r.newChain, r.common)
  {
    var oldChain, newChain, oldCur, newCur := oldStart, newStart, oldLevel, newLevel;
    SegmentAncestors(headers, oldHead, oldChain, oldCur, oldCur.number) by { SegmentNumbers(headers, oldHead, oldChain, oldCur); }
    SegmentAncestors(headers, newHead, newChain, newCur, newCur.number) by { SegmentNumbers(headers, newHead, newChain, newCur); }
    while oldCur.hash != newCur.hash
      invariant oldCur.number == newCur.number
      invariant Searching(headers, oldHead, oldChain, oldCur, newHead.hash)
      invariant Searching(headers, newHead, newChain, newCur, oldHead.hash)
      invariant AncestorAt(headers, oldHead.hash, oldCur.number) == oldCur.hash
      invariant AncestorAt(headers, newHead.hash, newCur.number) == newCur.hash
      decreases oldCur.number
    {
      if oldCur.parent !in headers {
        DeadEnd(headers, oldHead, oldChain, oldCur, newHead.hash);
        return OldParentMissing;
      }
      if newCur.parent !in headers {
        DeadEnd(headers, newHead, newChain, newCur, oldHead.hash);
        MeetsSymmetric(headers, oldHead.hash, newHead.hash);
        return NewParentMissing;
      }
      SegmentExtend(headers, oldHead, oldChain, oldCur);
      SegmentExtend(headers, newHead, newChain, newCur);
      oldChain, newChain := oldChain + [oldCur], newChain + [newCur];
      oldCur, newCur := headers[oldCur.parent], headers[newCur.parent];
      SegmentNumbers(headers, oldHead, oldChain, oldCur);
      SegmentNumbers(headers, newHead, newChain, newCur);
      SegmentAncestors(headers, oldHead, oldChain, oldCur, oldCur.number);
      SegmentAncestors(headers, newHead, newChain, newCur, newCur.number);
    }
    SegmentIsFork(headers, oldHead, oldChain, oldCur, newHead.hash);
    SegmentIsFork(headers, newHead, newChain, newCur, oldHead.hash);
    r := Fork(oldChain, newChain, oldCur);
  }

  /** The walk-back of a reorganisation. It finds the fork exactly when the lines meet. */
  method FindFork(headers: map<Hash, Header>, oldHead: Header, newHead: Header) returns (r: ForkResult)
    requires Linked(headers) && Stored(headers, oldHead) && Stored(headers, newHead)
    ensures r.Fork? <==> Meets(headers, oldHead.hash, newHead.hash)
    ensures r.Fork? ==>
              && r.oldChain == ForkOf(headers, oldHead, newHead.hash)
              && r.newChain == ForkOf(headers, newHead, oldHead.hash)
              && Segment(headers, oldHead, r.oldChain, r.common)
              && Segment(headers, newHead, r.newChain, r.common)
  {
    var oldChain: seq<Header>, newChain: seq<Header> := [], [];
    var oldCur, newCur := oldHead, newHead;
    if oldCur.number > newCur.number {
      while oldCur.number != newCur.number
        invariant oldCur.number >= newCur.number
        invariant Searching(headers, oldHead, oldChain, oldCur, newHead.hash)
        decreases oldCur.number
      {
        if oldCur.parent !in headers {
          DeadEnd(headers, oldHead, oldChain, oldCur, newHead.hash);
          return OldParentMissing;
        }
        SegmentExtend(headers, oldHead, oldChain, oldCur);
        oldChain, oldCur := oldChain + [oldCur], headers[oldCur.parent];
      }
    } else {
      while newCur.number != oldCur.number
        invariant newCur.number >= oldCur.number
        invariant Searching(headers, newHead, newChain, newCur, oldHead.hash)
        decreases newCur.number
      {
        if newCur.parent !in headers {
          DeadEnd(headers, newHead, newChain, newCur, oldHead.hash);
          MeetsSymmetric(headers, oldHead.hash, newHead.hash);
          return NewParentMissing;
        }
        SegmentExtend(headers, newHead, newChain, newCur);
        newChain, newCur := newChain + [newCur], headers[newCur.parent];
      }
    }
    r := FindForkLevel(headers, oldHead, newHead, oldChain, newChain, oldCur, newCur);
  }
}
