/** The block chain: canonical-head maintenance over the chain database. */
module BlockChains {
  import opened Common
  import opened ChainDb
  import opened Forks
  import opened HeadSwitch

  // ---- Reading a transaction through the index ------------------------------------

  datatype TxEntry = TxEntry(blockHash: Hash, number: nat, index: nat)

  function FirstIndex(txs: seq<TxHash>, tx: TxHash): (i: nat)
    requires tx in txs
    ensures i < |txs| && txs[i] == tx && tx !in txs[..i]
  {
    if txs[0] == tx then 0 else 1 + FirstIndex(txs[1..], tx)
  }

  /** rawdb.ReadCanonicalTransaction: lookup entry, canonical hash, body scan. */
  function ReadCanonicalTransaction(db: Db, tx: TxHash): Option<TxEntry> {
    if tx !in db.lookups || db.lookups[tx] !in db.canon then None
    else
      var h := db.canon[db.lookups[tx]];
      if h !in db.bodies || tx !in db.bodies[h] then None
      else Some(TxEntry(h, db.lookups[tx], FirstIndex(db.bodies[h], tx)))
  }

  ghost predicate CacheValid(db: Db, cache: map<TxHash, TxEntry>) {
    forall tx | tx in cache :: ReadCanonicalTransaction(db, tx) == Some(cache[tx])
  }

  /** `tx` is in the block at height `n` of the line of `h`. */
  ghost predicate TxAt(db: Db, h: Hash, base: nat, n: nat, tx: TxHash)
    requires Linked(db.headers)
  {
    && base <= n
    && AncestorAt(db.headers, h, n) != ZERO
    && tx in BodyOf(db.bodies, AncestorAt(db.headers, h, n))
  }

  /** The recursive lookup map, said pointwise. */
  lemma {:induction false} LookupsAreOccurrences(db: Db, h: Hash, base: nat, tx: TxHash)
    requires Linked(db.headers) && DistinctTxs(db.headers, db.bodies, h, base)
    ensures var m := LineLookups(db.headers, db.bodies, h, base);
            forall n: nat :: TxAt(db, h, base, n, tx) <==> tx in m && m[tx] == n
    decreases if h in db.headers then db.headers[h].number + 1 else 0
  {
    if h in db.headers && base <= db.headers[h].number {
      var p := db.headers[h].parent;
      LookupsAreOccurrences(db, p, base, tx);
      var below, m := LineLookups(db.headers, db.bodies, p, base), LineLookups(db.headers, db.bodies, h, base);
      forall n: nat
        ensures TxAt(db, h, base, n, tx) <==> tx in m && m[tx] == n
      {
        assert TxAt(db, p, base, n, tx) <==> tx in below && below[tx] == n;
        if n < db.headers[h].number {
          assert TxAt(db, h, base, n, tx) <==> TxAt(db, p, base, n, tx);
        } else {
          assert !TxAt(db, p, base, n, tx);
        }
      }
    }
  }

  // ---- The state and its invariant -----------------------------------------------

  datatype Chain = Chain(db: Db, block: Header, header: Header, snap: Header, cache: map<TxHash, TxEntry>)

  ghost predicate AllDistinct(db: Db, base: nat) {
    Linked(db.headers) && forall h | h in db.headers :: DistinctTxs(db.headers, db.bodies, h, base)
  }

  /** What every completed operation keeps. */
  ghost predicate Inv(c: Chain, base: nat) {
    && Canonical(c.db, c.block.hash, base)
    && Stored(c.db.headers, c.block)
    && LookupsExact(c.db, c.block.hash, base)
    && AllDistinct(c.db, base)
    && c.db.headHeader == c.db.headFast == c.db.headBlock == c.block.hash
    && c.header == c.snap == c.block
    && CacheValid(c.db, c.cache)
  }

  /** A completed switch to `b`: every index is what rebuilding from scratch gives. */
  ghost predicate Switched(c: Chain, d: Chain, b: Header, base: nat)
    requires Linked(c.db.headers) && Stored(c.db.headers, b)
  {
    && d.db == WithMarkers(Rebuild(c.db, b.hash, base), b.hash)
    && d.db.headHeader == d.db.headFast == d.db.headBlock == b.hash
    && d.block == d.header == d.snap == b
    && CacheValid(d.db, d.cache)
  }

  ghost predicate HasBodies(bodies: map<Hash, seq<TxHash>>, chain: seq<Header>) {
    forall i | 0 <= i < |chain| :: chain[i].hash in bodies
  }

  /** The block a reorganisation leaves as top of the indexes: the parent of the new head,
      or the new head itself when it already lies on the old line. */
  ghost function Target(headers: map<Hash, Header>, oldHead: Header, newHead: Header): Header
    requires Linked(headers)
  {
    if OnLine(headers, newHead, oldHead.hash) || newHead.parent !in headers then newHead else headers[newHead.parent]
  }

  /** The headers of the new fork that a reorganisation writes: all but the new head. */
  function Below(chain: seq<Header>): seq<Header> {
    if chain == [] then [] else chain[1..]
  }

  lemma {:induction false} BelowRoot(headers: map<Hash, Header>, h: Hash, base: nat, n: nat)
    requires Linked(headers) && Rooted(headers, h, base) && AncestorAt(headers, h, n) != ZERO
    ensures base <= n
  {
    if n < base {
      AncestorTransitive(headers, h, base, n);
    }
  }

  lemma {:induction false} RootedThrough(headers: map<Hash, Header>, a: Header, b: Header, chainA: seq<Header>, chainB: seq<Header>, common: Header, base: nat)
    requires Linked(headers) && Segment(headers, a, chainA, common) && Segment(headers, b, chainB, common)
    requires Rooted(headers, a.hash, base)
    ensures base <= common.number && Rooted(headers, b.hash, base)
    ensures AncestorAt(headers, a.hash, base) == AncestorAt(headers, b.hash, base)
  {
    SegmentNumbers(headers, a, chainA, common);
    SegmentNumbers(headers, b, chainB, common);
    SegmentAncestors(headers, a, chainA, common, common.number);
    BelowRoot(headers, a.hash, base, common.number);
    SegmentAncestors(headers, a, chainA, common, base);
    SegmentAncestors(headers, b, chainB, common, base);
  }

  /** Everything the switch needs to know about the fork it found. */
  lemma {:induction false} TargetFacts(headers: map<Hash, Header>, oldHead: Header, newHead: Header, oldChain: seq<Header>, newChain: seq<Header>, common: Header)
    requires Linked(headers)
    requires Segment(headers, oldHead, oldChain, common) && Segment(headers, newHead, newChain, common)
    requires newChain == ForkOf(headers, newHead, oldHead.hash)
    ensures var p := Target(headers, oldHead, newHead);
            && Segment(headers, p, Below(newChain), common)
            && (OnLine(headers, p, oldHead.hash) <==> Below(newChain) == [])
            && (newChain == [] ==> p == newHead)
            && (newChain != [] ==> p.hash == newHead.parent)
  {
    SegmentNumbers(headers, oldHead, oldChain, common);
    SegmentAncestors(headers, oldHead, oldChain, common, common.number);
    if newChain != [] {
      SegmentTail(headers, newHead, newChain, common);
      var p := headers[newHead.parent];
      assert newChain == [newHead] + ForkOf(headers, p, oldHead.hash);
      assert newChain[1..] == ForkOf(headers, p, oldHead.hash);
    }
  }

  /** The transactions of the blocks of `chain`, or None when a block has no body. */
  method CollectTxs(bodies: map<Hash, seq<TxHash>>, chain: seq<Header>) returns (r: Option<seq<TxHash>>)
    ensures r.Some? <==> HasBodies(bodies, chain)
    ensures r.Some? ==> forall tx :: tx in r.value <==> tx in SegmentLookups(bodies, chain)
  {
    var txs: seq<TxHash> := [];
    for i := 0 to |chain|
      invariant HasBodies(bodies, chain[..i])
      invariant forall tx :: tx in txs <==> exists j :: 0 <= j < i && tx in BodyOf(bodies, chain[j].hash)
    {
      if chain[i].hash !in bodies {
        assert !HasBodies(bodies, chain);
        return None;
      }
      assert HasBodies(bodies, chain[..i + 1]) by {
        assert chain[..i + 1] == chain[..i] + [chain[i]];
      }
      txs := txs + bodies[chain[i].hash];
    }
    assert chain[..|chain|] == chain;
    forall tx ensures tx in txs <==> tx in SegmentLookups(bodies, chain) {
      SegmentLookupsKeys(bodies, chain, tx);
    }
    r := Some(txs);
  }

  ghost function TxSet(txs: seq<TxHash>): set<TxHash> {
    set tx | tx in txs
  }

  /** types.HashDifference. */
  method HashDifference(a: seq<TxHash>, b: seq<TxHash>) returns (keep: seq<TxHash>)
    ensures forall tx :: tx in keep <==> tx in a && tx !in b
  {
    keep := [];
    for i := 0 to |a|
      invariant forall tx :: tx in keep <==> tx in a[..i] && tx !in b
    {
      assert a[..i + 1] == a[..i] + [a[i]];
      if a[i] !in b {
        keep := keep + [a[i]];
      }
    }
    assert a[..|a|] == a;
  }

  ghost function LookupDeletes(txs: seq<TxHash>): seq<Write> {
    if txs == [] then [] else LookupDeletes(txs[..|txs| - 1]) + [DelLookup(txs[|txs| - 1])]
  }

  lemma {:induction false} DropOneMore(m: map<TxHash, nat>, s: set<TxHash>, tx: TxHash)
    ensures m - s - {tx} == m - (s + {tx})
  {
  }

  lemma {:induction false} LookupDeletesEffect(db: Db, txs: seq<TxHash>)
    ensures Apply(db, LookupDeletes(txs)) == db.(lookups := db.lookups - TxSet(txs))
  {
    if txs == [] {
      assert db.lookups - TxSet(txs) == db.lookups;
    } else {
      var front, last := txs[..|txs| - 1], txs[|txs| - 1];
      LookupDeletesEffect(db, front);
      ApplySnoc(db, LookupDeletes(front), DelLookup(last));
      assert TxSet(txs) == TxSet(front) + {last};
      DropOneMore(db.lookups, TxSet(front), last);
    }
  }

  /** The deletions of a reorganisation: the given lookups, and every number above
      `number`, read upwards until the first gap. */
  method PruneBatch(db: Db, txs: seq<TxHash>, number: nat, ghost top: nat) returns (batch: seq<Write>)
    requires forall n | n > number :: n in db.canon <==> n <= top
    ensures Apply(db, batch)
            == db.(lookups := db.lookups - TxSet(txs), canon := map n | n in db.canon && n <= number :: db.canon[n])
  {
    batch := [];
    for i := 0 to |txs|
      invariant batch == LookupDeletes(txs[..i])
    {
      batch := batch + [DelLookup(txs[i])];
      assert txs[..i + 1][..i] == txs[..i];
    }
    assert txs[..|txs|] == txs;
    LookupDeletesEffect(db, txs);
    var dels, e := DeleteAbove(db, number, number + top);
    ApplyConcat(db, batch, dels);
    DeleteWritesEffect(Apply(db, batch), number, e);
    batch := batch + dels;
    assert Without(db.canon, number, e) == map n | n in db.canon && n <= number :: db.canon[n];
  }

  // ---- Why the switch is a rebuild -------------------------------------------------

  /** The database a completed reorganisation leaves. Markers move only when some block of
      the new fork was written. */
  ghost function Reorged(db: Db, oldHead: Header, newHead: Header, base: nat): Db
    requires Linked(db.headers) && Stored(db.headers, newHead)
  {
    var p := Target(db.headers, oldHead, newHead);
    var r := Rebuild(db, p.hash, base);
    if OnLine(db.headers, p, oldHead.hash) then r else WithMarkers(r, p.hash)
  }

  lemma {:induction false} ReorgRebuilds(db: Db, oldHead: Header, newHead: Header, oldChain: seq<Header>, newChain: seq<Header>, common: Header,
                      base: nat, stale: set<TxHash>, d: Db)
    requires Canonical(db, oldHead.hash, base) && LookupsExact(db, oldHead.hash, base)
    requires DistinctTxs(db.headers, db.bodies, oldHead.hash, base)
    requires Segment(db.headers, oldHead, oldChain, common) && Segment(db.headers, newHead, newChain, common)
    requires newChain == ForkOf(db.headers, newHead, oldHead.hash)
    requires stale == SegmentLookups(db.bodies, oldChain).Keys - SegmentLookups(db.bodies, Below(newChain)).Keys
    requires var e, p := Extend(db, Below(newChain)), Target(db.headers, oldHead, newHead);
             d == e.(lookups := e.lookups - stale, canon := map n | n in e.canon && n <= p.number :: e.canon[n])
    ensures d == Reorged(db, oldHead, newHead, base)
  {
    var p, added := Target(db.headers, oldHead, newHead), Below(newChain);
    TargetFacts(db.headers, oldHead, newHead, oldChain, newChain, common);
    RootedThrough(db.headers, oldHead, newHead, oldChain, newChain, common, base);
    ExtendEffect(db, added);
    CanonRebuilt(db, oldHead, oldChain, p, added, common, base, d.canon);
    LookupsRebuilt(db, oldHead, oldChain, p, added, common, base);
  }

  /** Above the target only old entries remain, without a gap. */
  lemma {:induction false} StaleNumbers(db: Db, oldHead: Header, oldChain: seq<Header>, p: Header, added: seq<Header>, common: Header, base: nat, n: nat)
    requires Canonical(db, oldHead.hash, base) && Stored(db.headers, oldHead)
    requires Segment(db.headers, oldHead, oldChain, common) && Segment(db.headers, p, added, common)
    requires base <= common.number && n > p.number
    ensures n in Extend(db, added).canon <==> n <= oldHead.number
  {
    ExtendEffect(db, added);
    SegmentNumbers(db.headers, p, added, common);
    SegmentIndexIsLine(db.headers, p, added, common, n);
  }

  /** Entries cached below a new head still hold once the head is written. */
  lemma {:induction false} CacheSurvives(db: Db, d: Db, e: Db, b: Header, p: Header, base: nat, cache: map<TxHash, TxEntry>)
    requires Linked(db.headers) && Stored(db.headers, b) && Stored(db.headers, p)
    requires b.parent == p.hash && base <= p.number
    requires DistinctTxs(db.headers, db.bodies, b.hash, base)
    requires d.canon == Rebuild(db, p.hash, base).canon && d.lookups == Rebuild(db, p.hash, base).lookups
    requires e.canon == Rebuild(db, b.hash, base).canon && e.lookups == Rebuild(db, b.hash, base).lookups
    requires d.bodies == e.bodies == db.bodies
    requires CacheValid(d, cache)
    ensures CacheValid(e, cache)
  {
    IndexOnParent(db, b, p, base);
    forall tx | tx in cache
      ensures ReadCanonicalTransaction(e, tx) == ReadCanonicalTransaction(d, tx)
    {
      assert ReadCanonicalTransaction(d, tx) == Some(cache[tx]);
      assert tx in d.lookups && d.lookups[tx] <= p.number;
      assert tx !in BodyOf(db.bodies, b.hash);
      assert e.lookups == d.lookups + BlockLookups(BodyOf(db.bodies, b.hash), b.number);
    }
  }

  /** A completed switch to a block whose line reaches the base keeps the invariant. */
  lemma {:induction false} SwitchKeepsInv(c: Chain, d: Chain, b: Header, base: nat)
    requires Inv(c, base) && Stored(c.db.headers, b) && Rooted(c.db.headers, b.hash, base)
    requires Switched(c, d, b, base)
    ensures Inv(d, base)
  {
    RebuiltIsCanonical(c.db, b.hash, base);
  }

  // ---- A switch that stops half-way ------------------------------------------------

  /** The number index is the line of some block. */
  ghost predicate IsLine(db: Db, base: nat) {
    exists h :: Canonical(db, h, base)
  }

  /** The blocks that a reorganisation gets to write: those below the lowest missing body. */
  ghost function Written(bodies: map<Hash, seq<TxHash>>, chain: seq<Header>): seq<Header> {
    if HasBodies(bodies, chain) then chain else Written(bodies, chain[1..])
  }

  lemma {:induction false} WrittenIs(bodies: map<Hash, seq<TxHash>>, chain: seq<Header>, j: nat)
    requires j < |chain| && chain[j].hash !in bodies && HasBodies(bodies, chain[j + 1..])
    ensures Written(bodies, chain) == chain[j + 1..]
  {
    assert !HasBodies(bodies, chain);
    if j > 0 {
      assert chain[1..][j..] == chain[j + 1..];
      WrittenIs(bodies, chain[1..], j - 1);
    }
  }

  lemma {:induction false} WrittenIsSuffix(bodies: map<Hash, seq<TxHash>>, chain: seq<Header>) returns (k: nat)
    ensures k <= |chain| && Written(bodies, chain) == chain[k..]
  {
    if HasBodies(bodies, chain) {
      k := 0;
      assert chain[0..] == chain;
    } else {
      k := WrittenIsSuffix(bodies, chain[1..]);
      assert chain[1..][k..] == chain[k + 1..];
      k := k + 1;
    }
  }

  /** The blocks and bodies that a reorganisation from `cur` to `b` must find before it writes. */
  ghost predicate Findable(d: Db, cur: Header, b: Header)
    requires Linked(d.headers) && Stored(d.headers, cur)
  {
    Meets(d.headers, cur.hash, b.hash) && HasBodies(d.bodies, ForkOf(d.headers, cur, b.hash))
  }

  /** The new fork up to the parent of `b`. */
  ghost function NewFork(d: Db, cur: Header, b: Header): seq<Header>
    requires Linked(d.headers) && Stored(d.headers, b)
  {
    Below(ForkOf(d.headers, b, cur.hash))
  }

  /** The chain with these blocks written as heads, lowest first. */
  ghost function Topped(c: Chain, written: seq<Header>): Chain {
    if written == [] then c else Chain(Extend(c.db, written), written[0], written[0], written[0], c.cache)
  }

  /** The block can become the head: it extends the head, or a reorganisation finds all it needs. */
  ghost predicate Switchable(c: Chain, b: Header)
    requires Linked(c.db.headers) && Stored(c.db.headers, c.block) && Stored(c.db.headers, b)
  {
    b.parent == c.block.hash || (Findable(c.db, c.block, b) && HasBodies(c.db.bodies, NewFork(c.db, c.block, b)))
  }

  /** What a reorganisation that fails leaves: nothing has changed, or the new fork is written up to
      the missing body and its last block is the head everywhere. */
  ghost function LeftBehind(c: Chain, cur: Header, b: Header): Chain
    requires Linked(c.db.headers) && Stored(c.db.headers, cur) && Stored(c.db.headers, b)
  {
    if Findable(c.db, cur, b) then Topped(c, Written(c.db.bodies, NewFork(c.db, cur, b))) else c
  }

  lemma {:induction false} HalfSwitchBroken(db: Db, oldHead: Header, oldChain: seq<Header>, p: Header, added: seq<Header>, common: Header, base: nat)
    requires Canonical(db, oldHead.hash, base) && base <= common.number
    requires Segment(db.headers, oldHead, oldChain, common) && Segment(db.headers, p, added, common)
    requires added != [] && p.number < oldHead.number && !OnLine(db.headers, p, oldHead.hash)
    ensures !IsLine(Extend(db, added), base)
  {
    var d := Extend(db, added);
    ExtendEffect(db, added);
    SegmentNumbers(db.headers, oldHead, oldChain, common);
    SegmentNumbers(db.headers, p, added, common);
    var m := p.number;
    SegmentIndexIsLine(db.headers, p, added, common, m);
    SegmentIndexIsLine(db.headers, p, added, common, m + 1);
    LineFilled(db.headers, oldHead.hash, base, m + 1);
    LineFilled(db.headers, oldHead.hash, base, m);
    AncestorTransitive(db.headers, oldHead.hash, m + 1, m);
    forall h ensures !Canonical(d, h, base) {
      if Canonical(d, h, base) {
        assert d.canon[m + 1] == AncestorAt(db.headers, h, m + 1);
        assert d.canon[m] == AncestorAt(db.headers, h, m);
        AncestorTransitive(db.headers, h, m + 1, m);
        assert false;
      }
    }
  }

  /** When a body of the new fork is missing, the blocks below it (`added`) are already
      written. The number index is then a line again exactly when nothing was written or
      the written blocks reach at least as high as the old head. */
  lemma {:induction false} HalfSwitch(db: Db, oldHead: Header, oldChain: seq<Header>, p: Header, added: seq<Header>, common: Header, base: nat)
    requires Canonical(db, oldHead.hash, base) && base <= common.number
    requires Segment(db.headers, oldHead, oldChain, common) && Segment(db.headers, p, added, common)
    requires added != [] ==> !OnLine(db.headers, p, oldHead.hash)
    ensures IsLine(Extend(db, added), base) <==> added == [] || oldHead.number <= p.number
  {
    var d := Extend(db, added);
    ExtendEffect(db, added);
    SegmentNumbers(db.headers, oldHead, oldChain, common);
    SegmentNumbers(db.headers, p, added, common);
    if added == [] {
      assert Canonical(d, oldHead.hash, base);
    } else if oldHead.number <= p.number {
      RootedThrough(db.headers, oldHead, p, oldChain, added, common, base);
      forall n: nat
        ensures n in d.canon ==> n <= p.number
        ensures base <= n <= p.number ==> n in d.canon && d.canon[n] == AncestorAt(db.headers, p.hash, n)
      {
        SegmentIndexIsLine(db.headers, p, added, common, n);
        if base <= n <= common.number {
          SegmentAncestors(db.headers, oldHead, oldChain, common, n);
          SegmentAncestors(db.headers, p, added, common, n);
        }
      }
      assert Canonical(d, p.hash, base);
    } else {
      HalfSwitchBroken(db, oldHead, oldChain, p, added, common, base);
    }
  }

  /** The index that a failed reorganisation leaves is the line of a block if and only if it wrote
      nothing or got at least as high as the old head. */
  lemma {:induction false} HalfReorg(c: Chain, cur: Header, b: Header, oldChain: seq<Header>, newChain: seq<Header>, common: Header, base: nat)
    requires Canonical(c.db, cur.hash, base) && Stored(c.db.headers, cur) && Findable(c.db, cur, b)
    requires Segment(c.db.headers, cur, oldChain, common) && Segment(c.db.headers, b, newChain, common)
    requires newChain == ForkOf(c.db.headers, b, cur.hash)
    ensures var written := Written(c.db.bodies, NewFork(c.db, cur, b));
            IsLine(LeftBehind(c, cur, b).db, base) <==> written == [] || cur.number <= written[0].number
  {
    var written := Written(c.db.bodies, Below(newChain));
    RootedThrough(c.db.headers, cur, b, oldChain, newChain, common, base);
    var k := WrittenIsSuffix(c.db.bodies, Below(newChain));
    k := if newChain == [] then 0 else k + 1;
    assert written == newChain[k..];
    SegmentSuffix(c.db.headers, b, newChain, common, k);
    if written != [] {
      ForkApart(c.db.headers, b, cur.hash, k);
    }
    HalfSwitch(c.db, cur, oldChain, if written == [] then common else written[0], written, common, base);
  }

  /** Two blocks on genesis, and a fork of three whose second block has no body. */
  function ForkDb(): Db {
    Db(map[Hash(1) := Header(Hash(1), ZERO, 0, 0, ZERO),
           Hash(2) := Header(Hash(2), Hash(1), 1, 0, ZERO), Hash(3) := Header(Hash(3), Hash(2), 2, 0, ZERO),
           Hash(4) := Header(Hash(4), Hash(1), 1, 0, ZERO), Hash(5) := Header(Hash(5), Hash(4), 2, 0, ZERO),
           Hash(6) := Header(Hash(6), Hash(5), 3, 0, ZERO)],
       map[Hash(1) := [], Hash(2) := [], Hash(3) := [], Hash(4) := [], Hash(6) := []],
       map[0 := Hash(1), 1 := Hash(2), 2 := Hash(3)], map[], Hash(3), Hash(3), Hash(3))
  }

  lemma {:induction false} ForkDbLines(n: nat)
    requires Linked(ForkDb().headers)
    ensures AncestorAt(ForkDb().headers, Hash(3), n) == if n == 2 then Hash(3) else if n == 1 then Hash(2) else if n == 0 then Hash(1) else ZERO
    ensures AncestorAt(ForkDb().headers, Hash(6), n)
            == if n == 3 then Hash(6) else if n == 2 then Hash(5) else if n == 1 then Hash(4) else if n == 0 then Hash(1) else ZERO
  {
    var w := ForkDb().headers;
    assert AncestorAt(w, Hash(1), n) == if n == 0 then Hash(1) else ZERO;
    assert AncestorAt(w, Hash(2), n) == if n == 1 then Hash(2) else AncestorAt(w, Hash(1), n);
    assert AncestorAt(w, Hash(4), n) == if n == 1 then Hash(4) else AncestorAt(w, Hash(1), n);
    assert AncestorAt(w, Hash(5), n) == if n == 2 then Hash(5) else AncestorAt(w, Hash(4), n);
  }

  lemma {:induction false} ForkDbLinked()
    ensures Linked(ForkDb().headers)
  {
  }

  lemma {:induction false} ForkDbForks()
    requires Linked(ForkDb().headers)
    ensures var w := ForkDb().headers;
            && ForkOf(w, w[Hash(3)], Hash(6)) == [w[Hash(3)], w[Hash(2)]]
            && ForkOf(w, w[Hash(6)], Hash(3)) == [w[Hash(6)], w[Hash(5)], w[Hash(4)]]
            && Meets(w, Hash(3), Hash(6))
  {
    var w := ForkDb().headers;
    ForkDbLines(0);
    ForkDbLines(1);
    ForkDbLines(2);
    ForkDbLines(3);
    SegmentIsFork(w, w[Hash(3)], [w[Hash(3)], w[Hash(2)]], w[Hash(1)], Hash(6));
    SegmentIsFork(w, w[Hash(6)], [w[Hash(6)], w[Hash(5)], w[Hash(4)]], w[Hash(1)], Hash(3));
  }

  lemma {:induction false} ForkDbCanonical()
    requires Linked(ForkDb().headers)
    ensures Canonical(ForkDb(), Hash(3), 0)
  {
    ForkDbLines(0);
    ForkDbLines(1);
    ForkDbLines(2);
  }

  lemma {:induction false} FirstOfFork(bodies: map<Hash, seq<TxHash>>, b3: Header, b2: Header, b1: Header)
    requires b2.hash !in bodies && b1.hash in bodies
    ensures !HasBodies(bodies, Below([b3, b2, b1])) && Written(bodies, Below([b3, b2, b1])) == [b1]
  {
    assert Below([b3, b2, b1]) == [b2, b1] && [b2, b1][1..] == [b1];
    WrittenIs(bodies, [b2, b1], 0);
  }

  /** The reorganisation from the two blocks to that fork finds what it looks for and can write the
      first block of the fork only. */
  lemma {:induction false} HalfSwitchExample()
    ensures var d, w := ForkDb(), ForkDb().headers;
            && Linked(w) && Findable(d, w[Hash(3)], w[Hash(6)]) && !HasBodies(d.bodies, NewFork(d, w[Hash(3)], w[Hash(6)]))
            && Written(d.bodies, NewFork(d, w[Hash(3)], w[Hash(6)])) == [w[Hash(4)]]
  {
    ForkDbLinked();
    ForkDbForks();
    var w := ForkDb().headers;
    FirstOfFork(ForkDb().bodies, w[Hash(6)], w[Hash(5)], w[Hash(4)]);
  }

  /** Without transactions there are no lookups, and none that clash. */
  lemma {:induction false} NoTxs(headers: map<Hash, Header>, bodies: map<Hash, seq<TxHash>>, h: Hash, base: nat)
    requires Linked(headers) && forall x | x in bodies :: bodies[x] == []
    ensures LineLookups(headers, bodies, h, base) == map[] && DistinctTxs(headers, bodies, h, base)
    decreases if h in headers then headers[h].number + 1 else 0
  {
    if h in headers && base <= headers[h].number {
      NoTxs(headers, bodies, headers[h].parent, base);
    }
  }

  lemma {:induction false} ForkDbDistinct()
    requires Linked(ForkDb().headers)
    ensures AllDistinct(ForkDb(), 0) && LookupsExact(ForkDb(), Hash(3), 0)
  {
    forall h ensures LineLookups(ForkDb().headers, ForkDb().bodies, h, 0) == map[] && DistinctTxs(ForkDb().headers, ForkDb().bodies, h, 0) {
      NoTxs(ForkDb().headers, ForkDb().bodies, h, 0);
    }
  }

  datatype Outcome = Ok | InvalidOldChain | InvalidNewChain | UnknownAncestor | NoState

  // ---- Storing a block --------------------------------------------------------------

  /** What validation guarantees of a block before it is stored: its hash identifies it,
      header and body are stored together and after the parent, the number is one above the
      parent's, and no transaction of the parent's line is replayed. */
  ghost predicate ValidBlock(db: Db, b: Header, txs: seq<TxHash>, base: nat) {
    && Linked(db.headers)
    && b.hash != ZERO
    && (b.hash in db.headers ==> db.headers[b.hash] == b)
    && (b.hash in db.bodies ==> db.bodies[b.hash] == txs)
    && (b.hash in db.headers <==> b.hash in db.bodies)
    && (b.hash !in db.headers ==> forall h | h in db.headers :: db.headers[h].parent != b.hash)
    && (b.parent in db.headers ==> db.headers[b.parent].number + 1 == b.number)
    && (forall tx | tx in txs :: tx !in LineLookups(db.headers, db.bodies, b.parent, base))
  }

  function StoreBlock(db: Db, b: Header, txs: seq<TxHash>): Db {
    db.(headers := db.headers[b.hash := b], bodies := db.bodies[b.hash := txs])
  }

  /** Storing a new block changes no line that was there before. */
  lemma {:induction false} StoreKeepsLines(db: Db, b: Header, txs: seq<TxHash>, h: Hash, base: nat)
    requires ValidBlock(db, b, txs, base) && b.parent in db.headers && b.hash !in db.headers
    requires Linked(StoreBlock(db, b, txs).headers) && h != b.hash
    ensures var d := StoreBlock(db, b, txs);
            && (forall n: nat :: AncestorAt(d.headers, h, n) == AncestorAt(db.headers, h, n))
            && LineLookups(d.headers, d.bodies, h, base) == LineLookups(db.headers, db.bodies, h, base)
            && (DistinctTxs(d.headers, d.bodies, h, base) <==> DistinctTxs(db.headers, db.bodies, h, base))
    decreases if h in db.headers then db.headers[h].number + 1 else 0
  {
    if h in db.headers {
      StoreKeepsLines(db, b, txs, db.headers[h].parent, base);
    }
  }

  lemma {:induction false} StoreKeepsDistinct(db: Db, b: Header, txs: seq<TxHash>, base: nat)
    requires AllDistinct(db, base) && ValidBlock(db, b, txs, base) && b.parent in db.headers && b.hash !in db.headers
    ensures AllDistinct(StoreBlock(db, b, txs), base)
  {
    var d := StoreBlock(db, b, txs);
    assert Linked(d.headers);
    StoreKeepsLines(db, b, txs, b.parent, base);
    forall h | h in d.headers ensures DistinctTxs(d.headers, d.bodies, h, base) {
      if h != b.hash {
        StoreKeepsLines(db, b, txs, h, base);
      }
    }
  }

  lemma {:induction false} StoreKeepsCache(c: Chain, b: Header, txs: seq<TxHash>, base: nat)
    requires CacheValid(c.db, c.cache) && ValidBlock(c.db, b, txs, base) && b.hash !in c.db.headers
    ensures CacheValid(StoreBlock(c.db, b, txs), c.cache)
  {
    var d := StoreBlock(c.db, b, txs);
    forall tx | tx in c.cache ensures ReadCanonicalTransaction(d, tx) == ReadCanonicalTransaction(c.db, tx) {
      assert ReadCanonicalTransaction(c.db, tx) == Some(c.cache[tx]);
    }
  }

  lemma {:induction false} StoreKeepsInv(c: Chain, b: Header, txs: seq<TxHash>, base: nat)
    requires Inv(c, base) && ValidBlock(c.db, b, txs, base) && b.parent in c.db.headers
    ensures Inv(c.(db := StoreBlock(c.db, b, txs)), base)
  {
    var d := StoreBlock(c.db, b, txs);
    if b.hash in c.db.headers {
      assert d.headers == c.db.headers && d.bodies == c.db.bodies;
      assert d == c.db;
    } else {
      StoreKeepsDistinct(c.db, b, txs, base);
      StoreKeepsCache(c, b, txs, base);
      StoreKeepsLines(c.db, b, txs, c.block.hash, base);
    }
  }

  // ---- Completed operations ----------------------------------------------------------------------

  datatype Event = Insert(block: Header, txs: seq<TxHash>) | SetHead(head: Header) | Read(tx: TxHash) | Failed

  /** One completed operation on the chain. */
  ghost predicate Step(c: Chain, e: Event, d: Chain, base: nat) {
    match e
    case Insert(b, txs) => ValidBlock(c.db, b, txs, base) && b.parent in c.db.headers && d == c.(db := StoreBlock(c.db, b, txs))
    case SetHead(b) =>
      && Linked(c.db.headers) && Stored(c.db.headers, b)
      && Rooted(c.db.headers, b.hash, base)
      && AncestorAt(c.db.headers, b.hash, base) == AncestorAt(c.db.headers, c.block.hash, base)
      && Switched(c, d, b, base)
    case Read(_) => CacheValid(d.db, d.cache) && d == c.(cache := d.cache)
    case Failed => d == c
  }

  // ---- The chain object --------------------------------------------------------------------------

  class BlockChain {
    const base: nat
    var db: Db
    var currentBlock: Header
    var currentHeader: Header
    var currentSnapBlock: Header
    var txLookupCache: map<TxHash, TxEntry>

    ghost function State(): Chain
      reads this
    {
      Chain(db, currentBlock, currentHeader, currentSnapBlock, txLookupCache)
    }

    constructor (base: nat, db: Db, head: Header)
      requires Canonical(db, head.hash, base) && Stored(db.headers, head) && LookupsExact(db, head.hash, base)
      requires AllDistinct(db, base) && db.headHeader == db.headFast == db.headBlock == head.hash
      ensures this.base == base && State() == Chain(db, head, head, head, map[]) && Inv(State(), base)
    {
      this.base, this.db := base, db;
      currentBlock, currentHeader, currentSnapBlock, txLookupCache := head, head, head, map[];
    }

    /** Looks a transaction up through the cache; `evicted` is what the cache drops to make room. */
    method GetCanonicalTransaction(tx: TxHash, evicted: set<TxHash>) returns (r: Option<TxEntry>)
      requires CacheValid(db, txLookupCache)
      modifies this`txLookupCache
      ensures r == ReadCanonicalTransaction(db, tx)
      ensures CacheValid(db, txLookupCache)
    {
      if tx in txLookupCache {
        return Some(txLookupCache[tx]);
      }
      r := ReadCanonicalTransaction(db, tx);
      if r.Some? {
        txLookupCache := txLookupCache[tx := r.value] - evicted;
      }
    }

    method WriteHeadBlock(b: Header, txs: seq<TxHash>)
      modifies this`db, this`currentBlock, this`currentHeader, this`currentSnapBlock
      ensures db == Apply(old(db), HeadWrites(b, txs))
      ensures db.headHeader == db.headFast == db.headBlock == b.hash
      ensures currentBlock == currentHeader == currentSnapBlock == b
    {
      var batch := [PutHeadHeader(b.hash), PutHeadFast(b.hash), PutCanon(b.number, b.hash)];
      ghost var start := batch;
      for i := 0 to |txs|
        invariant batch == start + LookupWrites(txs[..i], b.number)
      {
        batch := batch + [PutLookup(txs[i], b.number)];
        assert txs[..i + 1][..i] == txs[..i];
      }
      assert txs[..|txs|] == txs;
      batch := batch + [PutHeadBlock(b.hash)];
      HeadWritesEffect(db, b, txs);
      db := Apply(db, batch);
      currentHeader, currentSnapBlock, currentBlock := b, b, b;
    }

    /** Writes the blocks of the new fork, all but the new head, lowest first. */
    method ApplyNewBlocks(newChain: seq<Header>) returns (rebirth: Option<seq<TxHash>>)
      modifies this`db, this`currentBlock, this`currentHeader, this`currentSnapBlock
      ensures rebirth.Some? <==> HasBodies(old(db).bodies, Below(newChain))
      ensures rebirth.Some? ==>
                && db == Extend(old(db), Below(newChain))
                && (forall tx :: tx in rebirth.value <==> tx in SegmentLookups(old(db).bodies, Below(newChain)))
      ensures State() == Topped(old(State()), Written(old(db).bodies, Below(newChain)))
    {
      var txs: seq<TxHash> := [];
      var i := |newChain| - 1;
      while i >= 1
        invariant -1 <= i < |newChain|
        invariant i < 1 ==> newChain[i + 1..] == Below(newChain)
        invariant State() == Topped(old(State()), newChain[i + 1..]) && db == Extend(old(db), newChain[i + 1..])
        invariant HasBodies(old(db).bodies, newChain[i + 1..])
        invariant forall tx :: tx in txs <==> tx in SegmentLookups(old(db).bodies, newChain[i + 1..])
      {
        ExtendEffect(old(db), newChain[i + 1..]);
        var b := newChain[i];
        if b.hash !in db.bodies {
          assert Below(newChain)[i - 1] == b && Below(newChain)[i..] == newChain[i + 1..];
          WrittenIs(old(db).bodies, Below(newChain), i - 1);
          return None;
        }
        assert newChain[i..][0] == b && newChain[i..][1..] == newChain[i + 1..];
        txs := txs + db.bodies[b.hash];
        WriteHeadBlock(b, db.bodies[b.hash]);
        i := i - 1;
      }
      rebirth := Some(txs);
    }

    /** The mutating half of a reorganisation, once the fork is known. */
    method ApplyFork(oldHead: Header, newHead: Header, oldChain: seq<Header>, newChain: seq<Header>, common: Header,
                     deleted: seq<TxHash>) returns (r: Outcome)
      requires Canonical(db, oldHead.hash, base) && LookupsExact(db, oldHead.hash, base)
      requires DistinctTxs(db.headers, db.bodies, oldHead.hash, base)
      requires Segment(db.headers, oldHead, oldChain, common) && Segment(db.headers, newHead, newChain, common)
      requires newChain == ForkOf(db.headers, newHead, oldHead.hash)
      requires forall tx :: tx in deleted <==> tx in SegmentLookups(db.bodies, oldChain)
      modifies this
      ensures r == if HasBodies(old(db).bodies, Below(newChain)) then Ok else InvalidNewChain
      ensures r == Ok ==>
                var p := Target(old(db).headers, oldHead, newHead);
                && db == Reorged(old(db), oldHead, newHead, base)
                && txLookupCache == map[]
                && Stored(old(db).headers, p)
                && Rooted(old(db).headers, newHead.hash, base)
                && AncestorAt(old(db).headers, newHead.hash, base) == AncestorAt(old(db).headers, oldHead.hash, base)
                && base <= p.number
                && (p == newHead || p.hash == newHead.parent)
      ensures r != Ok ==> State() == Topped(old(State()), Written(old(db).bodies, Below(newChain)))
    {
      ghost var d, p, added := db, Target(db.headers, oldHead, newHead), Below(newChain);
      TargetFacts(d.headers, oldHead, newHead, oldChain, newChain, common);
      RootedThrough(d.headers, oldHead, newHead, oldChain, newChain, common, base);
      SegmentNumbers(d.headers, p, added, common);
      var rebirth := ApplyNewBlocks(newChain);
      if rebirth.None? {
        return InvalidNewChain;
      }
      var stale := HashDifference(deleted, rebirth.value);
      var number := if |newChain| > 1 then newChain[1].number else common.number;
      assert number == p.number;
      forall n: nat | n > number ensures n in db.canon <==> n <= oldHead.number {
        StaleNumbers(d, oldHead, oldChain, p, added, common, base, n);
      }
      var batch := PruneBatch(db, stale, number, oldHead.number);
      assert TxSet(stale) == SegmentLookups(d.bodies, oldChain).Keys - SegmentLookups(d.bodies, added).Keys;
      db := Apply(db, batch);
      ReorgRebuilds(d, oldHead, newHead, oldChain, newChain, common, base, TxSet(stale), db);
      txLookupCache := map[];
      r := Ok;
    }

    /** Makes the indexes those of the parent of `newHead`; the caller writes `newHead`. */
    method Reorg(oldHead: Header, newHead: Header) returns (r: Outcome)
      requires Canonical(db, oldHead.hash, base) && LookupsExact(db, oldHead.hash, base)
      requires DistinctTxs(db.headers, db.bodies, oldHead.hash, base)
      requires Stored(db.headers, oldHead) && Stored(db.headers, newHead)
      modifies this
      ensures r == Ok || r == InvalidOldChain || r == InvalidNewChain
      ensures r == Ok <==> Findable(old(db), oldHead, newHead) && HasBodies(old(db).bodies, NewFork(old(db), oldHead, newHead))
      ensures r == InvalidOldChain ==> !Findable(old(db), oldHead, newHead)
      ensures r != Ok ==> State() == LeftBehind(old(State()), oldHead, newHead)
      ensures r != Ok && Findable(old(db), oldHead, newHead) ==>
                var written := Written(old(db).bodies, NewFork(old(db), oldHead, newHead));
                IsLine(db, base) <==> written == [] || oldHead.number <= written[0].number
      ensures r == Ok ==>
                var p := Target(old(db).headers, oldHead, newHead);
                && db == Reorged(old(db), oldHead, newHead, base)
                && txLookupCache == map[]
                && Stored(old(db).headers, p)
                && Rooted(old(db).headers, newHead.hash, base)
                && AncestorAt(old(db).headers, newHead.hash, base) == AncestorAt(old(db).headers, oldHead.hash, base)
                && base <= p.number
                && (p == newHead || p.hash == newHead.parent)
    {
      var f := FindFork(db.headers, oldHead, newHead);
      match f
      case OldParentMissing => return InvalidOldChain;
      case NewParentMissing => return InvalidNewChain;
      case Fork(oldChain, newChain, common) =>
        var deleted := CollectTxs(db.bodies, oldChain);
        if deleted.None? {
          return InvalidOldChain;
        }
        HalfReorg(State(), oldHead, newHead, oldChain, newChain, common, base);
        r := ApplyFork(oldHead, newHead, oldChain, newChain, common, deleted.value);
    }

    /** From the indexes of `p` to those of `b`, with readers in between. */
    method FinishSwitch(ghost c: Chain, ghost p: Header, b: Header, txs: seq<TxHash>, queries: seq<TxHash>)
      requires Inv(c, base) && Stored(c.db.headers, b) && Stored(c.db.headers, p) && BodyOf(c.db.bodies, b.hash) == txs
      requires base <= p.number && (p == b || p.hash == b.parent) && Rooted(c.db.headers, b.hash, base)
      requires WithMarkers(db, ZERO) == WithMarkers(Rebuild(c.db, p.hash, base), ZERO)
      requires CacheValid(db, txLookupCache)
      modifies this
      ensures Switched(c, State(), b, base) && Inv(State(), base)
    {
      ghost var mid := db;
      assert mid.canon == Rebuild(c.db, p.hash, base).canon && mid.lookups == Rebuild(c.db, p.hash, base).lookups && mid.bodies == c.db.bodies;
      for i := 0 to |queries|
        invariant db == mid && CacheValid(db, txLookupCache)
      {
        var _ := GetCanonicalTransaction(queries[i], {});
      }
      WriteHeadBlock(b, txs);
      if p == b {
        HeadOnItself(c.db, mid, b, base);
      } else {
        HeadOnParent(c.db, mid, b, p, base);
        CacheSurvives(c.db, mid, db, b, p, base, txLookupCache);
      }
      SwitchKeepsInv(c, State(), b, base);
    }

    /** Makes a stored block the head, reorganising if its parent is not the head. Readers may
        come in between: `queries` are the lookups served then. */
    method WriteKnownBlock(b: Header, txs: seq<TxHash>, queries: seq<TxHash>) returns (r: Outcome)
      requires Inv(State(), base) && Stored(db.headers, b) && BodyOf(db.bodies, b.hash) == txs
      modifies this
      ensures r == Ok || r == InvalidOldChain || r == InvalidNewChain
      ensures r == Ok ==> Step(old(State()), SetHead(b), State(), base) && Inv(State(), base)
      ensures r == Ok <==> Switchable(old(State()), b)
      ensures r == InvalidOldChain ==> State() == old(State())
      ensures r != Ok ==> State() == LeftBehind(old(State()), old(currentBlock), b)
    {
      ghost var c := State();
      ghost var p := currentBlock;
      if b.parent != currentBlock.hash {
        p := Target(db.headers, currentBlock, b);
        r := Reorg(currentBlock, b);
        if r != Ok {
          return;
        }
      } else {
        CanonicalIsRebuilt(db, currentBlock.hash, base);
        BelowRoot(db.headers, currentBlock.hash, base, currentBlock.number);
        assert Rooted(db.headers, b.hash, base);
      }
      FinishSwitch(c, p, b, txs, queries);
      r := Ok;
    }

    /** writeBlockWithState and writeBlockWithoutState: the block is stored, the head stays. */
    method InsertBlock(b: Header, txs: seq<TxHash>) returns (r: Outcome)
      requires Inv(State(), base) && ValidBlock(db, b, txs, base)
      modifies this`db
      ensures r == if b.parent in old(db).headers then Ok else UnknownAncestor
      ensures Step(old(State()), if r == Ok then Insert(b, txs) else Failed, State(), base)
    {
      if b.parent !in db.headers {
        return UnknownAncestor;
      }
      db := Apply(db, [PutHeader(b), PutBody(b.hash, txs)]);
      assert db == StoreBlock(old(db), b, txs) by {
        ApplySnoc(old(db), [PutHeader(b)], PutBody(b.hash, txs));
        ApplySnoc(old(db), [], PutHeader(b));
        assert [PutHeader(b)] + [PutBody(b.hash, txs)] == [PutHeader(b), PutBody(b.hash, txs)];
        assert [] + [PutHeader(b)] == [PutHeader(b)];
      }
      r := Ok;
    }

    /** Imports a block and makes it the head. */
    method WriteBlockAndSetHead(b: Header, txs: seq<TxHash>, queries: seq<TxHash>) returns (r: Outcome)
      requires Inv(State(), base) && ValidBlock(db, b, txs, base)
      modifies this
      ensures r == Ok ==>
                && b.parent in old(db).headers
                && Step(old(State()).(db := StoreBlock(old(db), b, txs)), SetHead(b), State(), base)
                && Inv(State(), base)
      ensures r == UnknownAncestor <==> b.parent !in old(db).headers
      ensures r == UnknownAncestor ==> State() == old(State())
      ensures r != UnknownAncestor ==>
                var stored := old(State()).(db := StoreBlock(old(db), b, txs));
                && Linked(stored.db.headers)
                && (r == Ok <==> Switchable(stored, b))
                && (r == InvalidOldChain ==> State() == stored)
                && (r != Ok ==> State() == LeftBehind(stored, stored.block, b))
    {
      r := InsertBlock(b, txs);
      if r == Ok {
        StoreKeepsInv(old(State()), b, txs, base);
        r := WriteKnownBlock(b, txs, queries);
      }
    }

    /** Makes a stored block the head; `hasState` tells whether its state is present or
        was recovered. */
    method SetCanonical(b: Header, txs: seq<TxHash>, hasState: bool, queries: seq<TxHash>) returns (r: Outcome)
      requires Inv(State(), base) && Stored(db.headers, b) && BodyOf(db.bodies, b.hash) == txs
      modifies this
      ensures r == NoState <==> !hasState
      ensures r == NoState || r == InvalidOldChain ==> State() == old(State())
      ensures hasState ==> (r == Ok <==> Switchable(old(State()), b))
      ensures hasState && r != Ok ==> State() == LeftBehind(old(State()), old(currentBlock), b)
      ensures r == Ok ==> Step(old(State()), SetHead(b), State(), base) && Inv(State(), base)
    {
      if !hasState {
        return NoState;
      }
      r := WriteKnownBlock(b, txs, queries);
    }
  }

  /** It leaves that block as head and an index that is the line of no block. */
  method ReorgStopsHalfWay() returns (r: Outcome, head: Header, db: Db)
    ensures r == InvalidNewChain && head.hash == Hash(4) && !IsLine(db, 0)
  {
    HalfSwitchExample();
    ForkDbCanonical();
    ForkDbDistinct();
    var bc := new BlockChain(0, ForkDb(), ForkDb().headers[Hash(3)]);
    r := bc.Reorg(ForkDb().headers[Hash(3)], ForkDb().headers[Hash(6)]);
    head, db := bc.currentBlock, bc.db;
  }

  // ---- Runs --------------------------------------------------------------------------------------

  ghost predicate Run(states: seq<Chain>, events: seq<Event>, base: nat) {
    && |states| == |events| + 1
    && Inv(states[0], base)
    && forall i | 0 <= i < |events| :: Step(states[i], events[i], states[i + 1], base)
  }

  lemma {:induction false} StepKeepsInv(c: Chain, e: Event, d: Chain, base: nat)
    requires Inv(c, base) && Step(c, e, d, base)
    ensures Inv(d, base)
    ensures AncestorAt(d.db.headers, d.block.hash, base) == AncestorAt(c.db.headers, c.block.hash, base)
    ensures forall n | n < base :: (n in d.db.canon <==> n in c.db.canon) && (n in c.db.canon ==> d.db.canon[n] == c.db.canon[n])
  {
    match e
    case Insert(b, txs) =>
      StoreKeepsInv(c, b, txs, base);
      AncestorGrows(c.db.headers, d.db.headers, c.block.hash, base);
    case SetHead(b) => SwitchKeepsInv(c, d, b, base);
    case Read(_) =>
    case Failed =>
  }

  lemma {:induction false} RunKeepsInv(states: seq<Chain>, events: seq<Event>, base: nat, i: nat)
    requires Run(states, events, base) && i < |states|
    ensures Inv(states[i], base)
    ensures AncestorAt(states[i].db.headers, states[i].block.hash, base) == AncestorAt(states[0].db.headers, states[0].block.hash, base)
    ensures forall n | n < base ::
              && (n in states[i].db.canon <==> n in states[0].db.canon)
              && (n in states[0].db.canon ==> states[i].db.canon[n] == states[0].db.canon[n])
  {
    if i > 0 {
      RunKeepsInv(states, events, base, i - 1);
      StepKeepsInv(states[i - 1], events[i - 1], states[i], base);
    }
  }

  /** In every state of every run the number index is the ancestor line of the head from the
      base up, with nothing above it, on one fixed base block; entries below stay put. All three markers,
      in the database and in memory, name the head. */
  lemma {:induction false} CanonicalInEveryRun(states: seq<Chain>, events: seq<Event>, base: nat, i: nat, n: nat)
    requires Run(states, events, base) && i < |states|
    ensures var c := states[i];
            && Linked(c.db.headers)
            && (n < base ==> (n in c.db.canon <==> n in states[0].db.canon))
            && (base <= n ==> (n in c.db.canon <==> n <= c.block.number))
            && (base <= n && n in c.db.canon ==> c.db.canon[n] == AncestorAt(c.db.headers, c.block.hash, n))
            && base in c.db.canon && base in states[0].db.canon && c.db.canon[base] == states[0].db.canon[base]
            && c.db.headHeader == c.db.headFast == c.db.headBlock == c.block.hash && c.header == c.snap == c.block
  {
    RunKeepsInv(states, events, base, i);
    BelowRoot(states[i].db.headers, states[i].block.hash, base, states[i].block.number);
  }

  /** In every state of every run a transaction is found exactly when it is on the canonical
      chain, at its place there; and whatever the cache holds says the same. */
  lemma {:induction false} LookupsInEveryRun(states: seq<Chain>, events: seq<Event>, base: nat, i: nat, tx: TxHash)
    requires Run(states, events, base) && i < |states|
    ensures var c := states[i];
            && Linked(c.db.headers)
            && (forall n: nat :: TxAt(c.db, c.block.hash, base, n, tx)
                                 <==> ReadCanonicalTransaction(c.db, tx).Some? && ReadCanonicalTransaction(c.db, tx).value.number == n)
            && (tx in c.cache ==> ReadCanonicalTransaction(c.db, tx) == Some(c.cache[tx]))
    ensures var c := states[i];
            ReadCanonicalTransaction(c.db, tx).Some? ==>
              var e := ReadCanonicalTransaction(c.db, tx).value;
              && e.blockHash == AncestorAt(c.db.headers, c.block.hash, e.number)
              && e.blockHash in c.db.bodies && e.index < |c.db.bodies[e.blockHash]| && c.db.bodies[e.blockHash][e.index] == tx
  {
    RunKeepsInv(states, events, base, i);
    var c := states[i];
    LookupsAreOccurrences(c.db, c.block.hash, base, tx);
    if tx in c.db.lookups {
      assert TxAt(c.db, c.block.hash, base, c.db.lookups[tx], tx);
    }
  }
}
