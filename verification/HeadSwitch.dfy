/** The writes of a head switch as values: what one head-block batch does, what a run of
    them does, and why the incremental switch agrees with rebuilding every index. */
module HeadSwitch {
  import opened ChainDb
  import opened Forks

  function LookupWrites(txs: seq<TxHash>, n: nat): seq<Write> {
    if txs == [] then [] else LookupWrites(txs[..|txs| - 1], n) + [PutLookup(txs[|txs| - 1], n)]
  }

  /** The batch of writeHeadBlock. */
  function HeadWrites(b: Header, txs: seq<TxHash>): seq<Write> {
    [PutHeadHeader(b.hash), PutHeadFast(b.hash), PutCanon(b.number, b.hash)]
    + LookupWrites(txs, b.number) + [PutHeadBlock(b.hash)]
  }

  lemma {:induction false} LookupOneMore(m: map<TxHash, nat>, txs: seq<TxHash>, tx: TxHash, n: nat)
    ensures (m + BlockLookups(txs, n))[tx := n] == m + BlockLookups(txs + [tx], n)
  {
  }

  lemma {:induction false} LookupWritesEffect(db: Db, txs: seq<TxHash>, n: nat)
    ensures Apply(db, LookupWrites(txs, n)) == db.(lookups := db.lookups + BlockLookups(txs, n))
  {
    if txs == [] {
      assert db.lookups + BlockLookups(txs, n) == db.lookups;
    } else {
      var front, last := txs[..|txs| - 1], txs[|txs| - 1];
      LookupWritesEffect(db, front, n);
      ApplySnoc(db, LookupWrites(front, n), PutLookup(last, n));
      assert txs == front + [last];
      LookupOneMore(db.lookups, front, last, n);
    }
  }

  /** One head-block batch points every marker at the block, enters it in the number
      index and enters its transactions in the lookup index; nothing else changes. */
  lemma {:induction false} HeadWritesEffect(db: Db, b: Header, txs: seq<TxHash>)
    ensures Apply(db, HeadWrites(b, txs))
            == WithMarkers(db, b.hash).(canon := db.canon[b.number := b.hash],
                                        lookups := db.lookups + BlockLookups(txs, b.number))
    ensures var d := Apply(db, HeadWrites(b, txs)); d.headHeader == d.headFast == d.headBlock == b.hash
  {
    var start := [PutHeadHeader(b.hash), PutHeadFast(b.hash), PutCanon(b.number, b.hash)];
    var d0 := db.(headHeader := b.hash);
    var d1 := d0.(headFast := b.hash);
    var d2 := d1.(canon := d1.canon[b.number := b.hash]);
    assert Apply(db, start) == d2 by {
      assert Apply(db, []) == db;
      ApplySnoc(db, [], PutHeadHeader(b.hash));
      ApplySnoc(db, [PutHeadHeader(b.hash)], PutHeadFast(b.hash));
      ApplySnoc(db, [PutHeadHeader(b.hash), PutHeadFast(b.hash)], PutCanon(b.number, b.hash));
      assert [] + [PutHeadHeader(b.hash)] == [PutHeadHeader(b.hash)];
      assert [PutHeadHeader(b.hash)] + [PutHeadFast(b.hash)] == [PutHeadHeader(b.hash), PutHeadFast(b.hash)];
      assert [PutHeadHeader(b.hash), PutHeadFast(b.hash)] + [PutCanon(b.number, b.hash)] == start;
    }
    ApplyConcat(db, start, LookupWrites(txs, b.number));
    LookupWritesEffect(d2, txs, b.number);
    ApplySnoc(db, start + LookupWrites(txs, b.number), PutHeadBlock(b.hash));
  }

  // ---- A run of head-block batches ----------------------------------------------

  /** The database after writing the blocks of `chain` as heads, lowest first. */
  ghost function Extend(db: Db, chain: seq<Header>): Db {
    if chain == [] then db
    else Apply(Extend(db, chain[1..]), HeadWrites(chain[0], BodyOf(db.bodies, chain[0].hash)))
  }

  ghost function SegmentIndex(chain: seq<Header>): map<nat, Hash> {
    if chain == [] then map[] else SegmentIndex(chain[1..])[chain[0].number := chain[0].hash]
  }

  lemma {:induction false} OverlayPut(a: map<nat, Hash>, b: map<nat, Hash>, n: nat, h: Hash)
    ensures (a + b)[n := h] == a + b[n := h]
  {
  }

  lemma {:induction false} ExtendEffect(db: Db, chain: seq<Header>)
    ensures Extend(db, chain)
            == (if chain == [] then db else WithMarkers(db, chain[0].hash))
               .(canon := db.canon + SegmentIndex(chain), lookups := db.lookups + SegmentLookups(db.bodies, chain))
    decreases |chain|
  {
    if chain == [] {
      assert db.canon + SegmentIndex(chain) == db.canon;
      assert db.lookups + SegmentLookups(db.bodies, chain) == db.lookups;
    } else {
      var b, txs := chain[0], BodyOf(db.bodies, chain[0].hash);
      ExtendEffect(db, chain[1..]);
      var d := Extend(db, chain[1..]);
      HeadWritesEffect(d, b, txs);
      OverlayPut(db.canon, SegmentIndex(chain[1..]), b.number, b.hash);
      OverlayAssociative(db.lookups, SegmentLookups(db.bodies, chain[1..]), BlockLookups(txs, b.number));
    }
  }

  lemma {:induction false} SegmentIndexIsLine(headers: map<Hash, Header>, top: Header, chain: seq<Header>, bottom: Header, n: nat)
    requires Linked(headers) && Segment(headers, top, chain, bottom)
    ensures n in SegmentIndex(chain) <==> bottom.number < n <= top.number
    ensures n in SegmentIndex(chain) ==> SegmentIndex(chain)[n] == AncestorAt(headers, top.hash, n)
    decreases |chain|
  {
    if chain != [] {
      SegmentNumbers(headers, top, chain, bottom);
      SegmentTail(headers, top, chain, bottom);
      SegmentIndexIsLine(headers, headers[top.parent], chain[1..], bottom, n);
    }
  }

  lemma {:induction false} SegmentLookupsKeys(bodies: map<Hash, seq<TxHash>>, chain: seq<Header>, tx: TxHash)
    ensures tx in SegmentLookups(bodies, chain) <==> exists i :: 0 <= i < |chain| && tx in BodyOf(bodies, chain[i].hash)
    decreases |chain|
  {
    if chain != [] {
      SegmentLookupsKeys(bodies, chain[1..], tx);
      if exists i :: 1 <= i < |chain| && tx in BodyOf(bodies, chain[i].hash) {
        var i :| 1 <= i < |chain| && tx in BodyOf(bodies, chain[i].hash);
        assert chain[1..][i - 1] == chain[i];
      }
      if exists i :: 0 <= i < |chain[1..]| && tx in BodyOf(bodies, chain[1..][i].hash) {
        var i :| 0 <= i < |chain[1..]| && tx in BodyOf(bodies, chain[1..][i].hash);
        assert chain[i + 1] == chain[1..][i];
      }
    }
  }

  // ---- The incremental switch is the rebuild -------------------------------------

  /** The lookup index names exactly the transactions of the line of `h`. */
  ghost predicate LookupsExact(db: Db, h: Hash, base: nat) {
    Linked(db.headers) && db.lookups == LineLookups(db.headers, db.bodies, h, base)
  }

  /** Overlaying the new fork and dropping every stale number gives the line of `p`. */
  lemma {:induction false} CanonRebuilt(db: Db, oldHead: Header, oldChain: seq<Header>, p: Header, added: seq<Header>, common: Header,
                     base: nat, canon: map<nat, Hash>)
    requires Canonical(db, oldHead.hash, base)
    requires Segment(db.headers, oldHead, oldChain, common) && Segment(db.headers, p, added, common)
    requires base <= common.number
    requires forall n :: n in canon <==> n in db.canon + SegmentIndex(added) && n <= p.number
    requires forall n | n in canon :: canon[n] == (db.canon + SegmentIndex(added))[n]
    ensures canon == Rebuild(db, p.hash, base).canon
  {
    var r := Rebuild(db, p.hash, base).canon;
    SegmentNumbers(db.headers, oldHead, oldChain, common);
    SegmentNumbers(db.headers, p, added, common);
    forall n: nat
      ensures n in r <==> n in canon
      ensures n in r ==> r[n] == canon[n]
    {
      SegmentIndexIsLine(db.headers, p, added, common, n);
      if base <= n <= common.number {
        SegmentAncestors(db.headers, oldHead, oldChain, common, n);
        SegmentAncestors(db.headers, p, added, common, n);
      }
    }
  }

  /** Overlaying new entries and dropping the old ones that did not reappear undoes the old overlay. */
  lemma {:induction false} SwapOverlay(low: map<TxHash, nat>, olds: map<TxHash, nat>, news: map<TxHash, nat>)
    requires olds.Keys !! low.Keys
    ensures (low + olds + news) - (olds.Keys - news.Keys) == low + news
  {
    var a, b := (low + olds + news) - (olds.Keys - news.Keys), low + news;
    assert a.Keys == b.Keys;
  }

  /** Transactions dropped with the old fork go, those of the new fork stay, and the rest
      were never touched. */
  lemma {:induction false} LookupsRebuilt(db: Db, oldHead: Header, oldChain: seq<Header>, p: Header, added: seq<Header>, common: Header, base: nat)
    requires LookupsExact(db, oldHead.hash, base) && base <= common.number
    requires DistinctTxs(db.headers, db.bodies, oldHead.hash, base)
    requires Segment(db.headers, oldHead, oldChain, common) && Segment(db.headers, p, added, common)
    ensures (db.lookups + SegmentLookups(db.bodies, added))
            - (SegmentLookups(db.bodies, oldChain).Keys - SegmentLookups(db.bodies, added).Keys)
            == Rebuild(db, p.hash, base).lookups
  {
    LookupsSplit(db, oldHead, oldChain, common, base);
    LookupsSplit(db, p, added, common, base);
    DistinctSplit(db, oldHead, oldChain, common, base);
    SwapOverlay(LineLookups(db.headers, db.bodies, common.hash, base), SegmentLookups(db.bodies, oldChain), SegmentLookups(db.bodies, added));
  }

  lemma {:induction false} IndexOnParent(db: Db, b: Header, p: Header, base: nat)
    requires Linked(db.headers) && Stored(db.headers, b) && Stored(db.headers, p)
    requires b.parent == p.hash && base <= p.number
    ensures Rebuild(db, p.hash, base).canon[b.number := b.hash] == Rebuild(db, b.hash, base).canon
  {
    var c, r := Rebuild(db, p.hash, base).canon[b.number := b.hash], Rebuild(db, b.hash, base).canon;
    forall n: nat ensures n in c <==> n in r
                  ensures n in r ==> c[n] == r[n]
    {
      assert base <= n < b.number ==> AncestorAt(db.headers, b.hash, n) == AncestorAt(db.headers, p.hash, n);
    }
  }

  /** Writing the child of `p` as head turns the rebuild at `p` into the rebuild at the child. */
  lemma {:induction false} HeadOnParent(db: Db, d: Db, b: Header, p: Header, base: nat)
    requires Linked(db.headers) && Stored(db.headers, b) && Stored(db.headers, p)
    requires b.parent == p.hash && base <= p.number
    requires WithMarkers(d, ZERO) == WithMarkers(Rebuild(db, p.hash, base), ZERO)
    ensures Apply(d, HeadWrites(b, BodyOf(db.bodies, b.hash))) == WithMarkers(Rebuild(db, b.hash, base), b.hash)
  {
    HeadWritesEffect(d, b, BodyOf(db.bodies, b.hash));
    var p' := Rebuild(db, p.hash, base);
    assert d.canon == p'.canon && d.lookups == p'.lookups;
    IndexOnParent(db, b, p, base);
  }

  lemma {:induction false} OverlayTwice(a: map<TxHash, nat>, b: map<TxHash, nat>)
    ensures a + b + b == a + b
  {
  }

  lemma {:induction false} IndexOnItself(db: Db, b: Header, base: nat)
    requires Linked(db.headers) && Stored(db.headers, b) && base <= b.number
    ensures Rebuild(db, b.hash, base).canon[b.number := b.hash] == Rebuild(db, b.hash, base).canon
  {
    var r := Rebuild(db, b.hash, base).canon;
    assert b.number in r && r[b.number] == b.hash;
  }

  /** Writing as head a block that already is the head of the indexes changes only markers. */
  lemma {:induction false} HeadOnItself(db: Db, d: Db, b: Header, base: nat)
    requires Linked(db.headers) && Stored(db.headers, b) && base <= b.number
    requires WithMarkers(d, ZERO) == WithMarkers(Rebuild(db, b.hash, base), ZERO)
    ensures Apply(d, HeadWrites(b, BodyOf(db.bodies, b.hash))) == WithMarkers(Rebuild(db, b.hash, base), b.hash)
  {
    var txs := BodyOf(db.bodies, b.hash);
    HeadWritesEffect(d, b, txs);
    var r := Rebuild(db, b.hash, base);
    assert d.canon == r.canon && d.lookups == r.lookups;
    IndexOnItself(db, b, base);
    OverlayTwice(LineLookups(db.headers, db.bodies, b.parent, base), BlockLookups(txs, b.number));
  }
}
