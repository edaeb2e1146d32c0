/** The chain database: headers and bodies by hash, the number-to-hash index of the
    canonical chain, the transaction lookup index, and the three head markers.
    A batch is an explicit list of writes, so a crash point is a prefix of a list. */
module ChainDb {
  import opened Common

  datatype Hash = Hash(id: int)
  datatype TxHash = TxHash(id: int)

  /** The empty hash. No header hashes to it. */
  const ZERO: Hash := Hash(0)

  /** A header together with its hash; two stored headers with one hash are one header. */
  datatype Header = Header(hash: Hash, parent: Hash, number: nat, time: nat, root: Hash)

  datatype Db = Db(
    headers: map<Hash, Header>,
    bodies: map<Hash, seq<TxHash>>,
    canon: map<nat, Hash>,
    lookups: map<TxHash, nat>,
    headHeader: Hash,
    headFast: Hash,
    headBlock: Hash)

  datatype Write =
    | PutHeader(header: Header)
    | DelHeader(hash: Hash)
    | PutBody(hash: Hash, txs: seq<TxHash>)
    | DelBody(hash: Hash)
    | PutCanon(number: nat, hash: Hash)
    | DelCanon(number: nat)
    | PutLookup(tx: TxHash, number: nat)
    | DelLookup(tx: TxHash)
    | PutHeadHeader(hash: Hash)
    | PutHeadFast(hash: Hash)
    | PutHeadBlock(hash: Hash)

  function Apply1(db: Db, w: Write): Db {
    match w
    case PutHeader(h) => db.(headers := db.headers[h.hash := h])
    case DelHeader(h) => db.(headers := db.headers - {h})
    case PutBody(h, txs) => db.(bodies := db.bodies[h := txs])
    case DelBody(h) => db.(bodies := db.bodies - {h})
    case PutCanon(n, h) => db.(canon := db.canon[n := h])
    case DelCanon(n) => db.(canon := db.canon - {n})
    case PutLookup(tx, n) => db.(lookups := db.lookups[tx := n])
    case DelLookup(tx) => db.(lookups := db.lookups - {tx})
    case PutHeadHeader(h) => db.(headHeader := h)
    case PutHeadFast(h) => db.(headFast := h)
    case PutHeadBlock(h) => db.(headBlock := h)
  }

  /** The database after the first `n` writes of a batch. */
  function ApplyFirst(db: Db, ws: seq<Write>, n: nat): Db
    requires n <= |ws|
  {
    if n == 0 then db else Apply1(ApplyFirst(db, ws, n - 1), ws[n - 1])
  }

  /** The database after a batch, its writes applied in the order they were added. */
  function Apply(db: Db, ws: seq<Write>): Db {
    ApplyFirst(db, ws, |ws|)
  }

  lemma {:induction false} ApplyFirstConcat(db: Db, a: seq<Write>, b: seq<Write>, n: nat)
    requires n <= |a| + |b|
    ensures ApplyFirst(db, a + b, n) == if n <= |a| then ApplyFirst(db, a, n) else ApplyFirst(Apply(db, a), b, n - |a|)
  {
    if n > 0 {
      ApplyFirstConcat(db, a, b, n - 1);
    }
  }

  lemma {:induction false} ApplyConcat(db: Db, a: seq<Write>, b: seq<Write>)
    ensures Apply(db, a + b) == Apply(Apply(db, a), b)
  {
    ApplyFirstConcat(db, a, b, |a| + |b|);
  }

  lemma {:induction false} ApplySnoc(db: Db, ws: seq<Write>, w: Write)
    ensures Apply(db, ws + [w]) == Apply1(Apply(db, ws), w)
  {
    ApplyConcat(db, ws, [w]);
    assert ApplyFirst(Apply(db, ws), [w], 0) == Apply(db, ws);
  }

  lemma {:induction false} ApplyOne(db: Db, w: Write)
    ensures Apply(db, [w]) == Apply1(db, w)
  {
    assert ApplyFirst(db, [w], 0) == db;
  }

  /** Deletions of the numbers above `top` and below `e`, upwards. */
  function DeleteWrites(top: nat, e: nat): seq<Write>
    requires top < e
  {
    if e == top + 1 then [] else DeleteWrites(top, e - 1) + [DelCanon(e - 1)]
  }

  ghost function Without(canon: map<nat, Hash>, top: nat, e: nat): map<nat, Hash> {
    map n | n in canon && !(top < n < e) :: canon[n]
  }

  lemma {:induction false} WithoutNext(canon: map<nat, Hash>, top: nat, e: nat)
    requires top < e
    ensures Without(canon, top, e) - {e} == Without(canon, top, e + 1)
  {
  }

  lemma {:induction false} DeleteWritesEffect(db: Db, top: nat, e: nat)
    requires top < e
    ensures Apply(db, DeleteWrites(top, e)) == db.(canon := Without(db.canon, top, e))
  {
    if e == top + 1 {
      assert db.canon == Without(db.canon, top, e);
    } else {
      DeleteWritesEffect(db, top, e - 1);
      ApplySnoc(db, DeleteWrites(top, e - 1), DelCanon(e - 1));
      WithoutNext(db.canon, top, e - 1);
    }
  }

  /** Deletes the numbers above `top`, read upwards until the first gap at `e`. */
  method DeleteAbove(db: Db, top: nat, ghost bound: nat) returns (batch: seq<Write>, e: nat)
    requires forall n | n in db.canon :: n <= bound
    ensures e > top && e !in db.canon && (forall n | top < n < e :: n in db.canon)
    ensures batch == DeleteWrites(top, e)
  {
    batch, e := [], top + 1;
    while e in db.canon
      invariant e > top && forall n | top < n < e :: n in db.canon
      invariant batch == DeleteWrites(top, e)
      decreases bound + 1 - e
    {
      batch := batch + [DelCanon(e)];
      e := e + 1;
    }
  }

  // ---- Parent links -------------------------------------------------------------

  /** Headers are stored under their hash, and a stored parent is one height below. */
  ghost predicate Linked(headers: map<Hash, Header>) {
    && ZERO !in headers
    && (forall h | h in headers :: headers[h].hash == h)
    && (forall h | h in headers && headers[h].parent in headers ::
          headers[headers[h].parent].number + 1 == headers[h].number)
  }

  /** The plain parent walk: the ancestor-or-self of `h` at height `n`, or ZERO when the
      walk leaves the store before it reaches that height. */
  ghost function AncestorAt(headers: map<Hash, Header>, h: Hash, n: nat): (a: Hash)
    requires Linked(headers)
    ensures a != ZERO ==> h in headers && a in headers && headers[a].number == n <= headers[h].number
    decreases if h in headers then headers[h].number + 1 else 0
  {
    if h !in headers || headers[h].number < n then ZERO
    else if headers[h].number == n then h
    else AncestorAt(headers, headers[h].parent, n)
  }

  /** The parent walk from `h` reaches height `base` and ends there. */
  ghost predicate Rooted(headers: map<Hash, Header>, h: Hash, base: nat)
    requires Linked(headers)
  {
    var a := AncestorAt(headers, h, base);
    a != ZERO && headers[a].parent == ZERO
  }

  /** The walk composes: going to `m` and on to `n` is going to `n`. */
  lemma {:induction false} AncestorTransitive(headers: map<Hash, Header>, h: Hash, m: nat, n: nat)
    requires Linked(headers) && n <= m
    requires AncestorAt(headers, h, m) != ZERO
    ensures AncestorAt(headers, AncestorAt(headers, h, m), n) == AncestorAt(headers, h, n)
    decreases if h in headers then headers[h].number + 1 else 0
  {
    if headers[h].number > m {
      AncestorTransitive(headers, headers[h].parent, m, n);
    }
  }

  lemma {:induction false} LineFilled(headers: map<Hash, Header>, h: Hash, base: nat, n: nat)
    requires Linked(headers) && AncestorAt(headers, h, base) != ZERO
    requires base <= n <= headers[h].number
    ensures AncestorAt(headers, h, n) != ZERO
    decreases headers[h].number
  {
    if headers[h].number > n {
      LineFilled(headers, headers[h].parent, base, n);
    }
  }

  /** Adding headers never changes a walk that succeeded. */
  lemma {:induction false} AncestorGrows(a: map<Hash, Header>, b: map<Hash, Header>, h: Hash, n: nat)
    requires Linked(a) && Linked(b)
    requires forall x | x in a :: x in b && b[x] == a[x]
    requires AncestorAt(a, h, n) != ZERO
    ensures AncestorAt(b, h, n) == AncestorAt(a, h, n)
    decreases if h in a then a[h].number + 1 else 0
  {
    if h in a && a[h].number > n {
      AncestorGrows(a, b, a[h].parent, n);
    }
  }

  // ---- The canonical index rebuilt from scratch --------------------------------

  /** The number-to-hash entries of the line from `base` up to `h`. */
  ghost function LineIndex(headers: map<Hash, Header>, h: Hash, base: nat): (m: map<nat, Hash>)
    requires Linked(headers) && h in headers
    ensures forall n: nat :: n in m <==> base <= n <= headers[h].number
    ensures forall n: nat | base <= n <= headers[h].number :: m[n] == AncestorAt(headers, h, n)
    decreases headers[h].number + 1 - base
  {
    if base > headers[h].number then map[]
    else LineIndex(headers, h, base + 1)[base := AncestorAt(headers, h, base)]
  }

  function BlockLookups(txs: seq<TxHash>, n: nat): (m: map<TxHash, nat>)
    ensures forall tx :: tx in m <==> tx in txs
    ensures forall tx | tx in m :: m[tx] == n
  {
    if txs == [] then map[] else BlockLookups(txs[..|txs| - 1], n)[txs[|txs| - 1] := n]
  }

  function BodyOf(bodies: map<Hash, seq<TxHash>>, h: Hash): seq<TxHash> {
    if h in bodies then bodies[h] else []
  }

  /** The transaction lookups of the line from `base` up to `h`. */
  ghost function LineLookups(headers: map<Hash, Header>, bodies: map<Hash, seq<TxHash>>, h: Hash, base: nat): map<TxHash, nat>
    requires Linked(headers)
    decreases if h in headers then headers[h].number + 1 else 0
  {
    if h !in headers || headers[h].number < base then map[]
    else LineLookups(headers, bodies, headers[h].parent, base)
         + BlockLookups(BodyOf(bodies, h), headers[h].number)
  }

  /** No transaction occurs in two blocks of the line from `base` up to `h`. */
  ghost predicate DistinctTxs(headers: map<Hash, Header>, bodies: map<Hash, seq<TxHash>>, h: Hash, base: nat)
    requires Linked(headers)
    decreases if h in headers then headers[h].number + 1 else 0
  {
    h in headers && base <= headers[h].number ==>
      && DistinctTxs(headers, bodies, headers[h].parent, base)
      && (forall tx | tx in BodyOf(bodies, h) :: tx !in LineLookups(headers, bodies, headers[h].parent, base))
  }

  /** The number-to-hash index is the ancestor line of `h` down to `base`, where the line
      ends; nothing lies above `h`. Entries below `base` are not spoken of. */
  ghost predicate Canonical(db: Db, h: Hash, base: nat) {
    && Linked(db.headers)
    && Rooted(db.headers, h, base)
    && (forall n | base <= n <= db.headers[h].number :: n in db.canon && db.canon[n] == AncestorAt(db.headers, h, n))
    && (forall n | n in db.canon :: n <= db.headers[h].number)
  }

  /** The indexes computed from nothing but the headers, the bodies and the head. */
  ghost function Rebuild(db: Db, h: Hash, base: nat): Db
    requires Linked(db.headers) && h in db.headers
  {
    db.(canon := (map n | n in db.canon && n < base :: db.canon[n]) + LineIndex(db.headers, h, base),
        lookups := LineLookups(db.headers, db.bodies, h, base))
  }

  /** The markers of a completed head switch. */
  function WithMarkers(db: Db, h: Hash): Db {
    db.(headHeader := h, headFast := h, headBlock := h)
  }

  /** Canonical is exactly: rebuilding the number index changes nothing. */
  lemma {:induction false} CanonicalIsRebuilt(db: Db, h: Hash, base: nat)
    requires Linked(db.headers) && Rooted(db.headers, h, base)
    ensures Canonical(db, h, base) <==> db.canon == Rebuild(db, h, base).canon
  {
    var r := Rebuild(db, h, base).canon;
    var top := db.headers[h].number;
    assert forall n | base <= n <= top :: n in r && r[n] == AncestorAt(db.headers, h, n);
    assert forall n | n in r :: n <= top;
    if Canonical(db, h, base) {
      assert db.canon.Keys == r.Keys;
    }
  }

  lemma {:induction false} RebuiltIsCanonical(db: Db, h: Hash, base: nat)
    requires Linked(db.headers) && Rooted(db.headers, h, base)
    ensures Canonical(Rebuild(db, h, base), h, base)
  {
  }
}
