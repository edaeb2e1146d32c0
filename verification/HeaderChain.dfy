/** The header chain: header import and the header-only reorganisation. */
module HeaderChains {
  import opened Common
  import opened ChainDb
  import opened Forks

  /** The given headers form one line, each the parent of the next. */
  ghost predicate Contiguous(headers: seq<Header>) {
    forall i | 0 < i < |headers| :: headers[i].parent == headers[i - 1].hash && headers[i].number == headers[i - 1].number + 1
  }

  ghost predicate AllStored(store: map<Hash, Header>, headers: seq<Header>) {
    forall i | 0 <= i < |headers| :: Stored(store, headers[i])
  }

  /** The index already agrees with the line of `h` at height `n`, or the walk hit height 0. */
  ghost predicate AgreesAt(db: Db, h: Hash, n: nat)
    requires Linked(db.headers)
  {
    var a := AncestorAt(db.headers, h, n);
    a != ZERO && (n == 0 || (n in db.canon && db.canon[n] == a))
  }

  /** The back-walk from `h` comes to an end inside the store. */
  ghost predicate Attaches(db: Db, h: Hash)
    requires Linked(db.headers)
  {
    exists n: nat :: AgreesAt(db, h, n)
  }

  ghost predicate OverlaidAt(c: map<nat, Hash>, d: map<nat, Hash>, headers: map<Hash, Header>, h: Hash, low: nat, high: nat, n: nat)
    requires Linked(headers)
  {
    if low <= n < high then n in d && d[n] == AncestorAt(headers, h, n)
    else if n in c then n in d && d[n] == c[n]
    else n !in d
  }

  /** `d` is `c` with the entries of the line of `h` put in from `low` to below `high`. */
  ghost predicate Overlaid(c: map<nat, Hash>, d: map<nat, Hash>, headers: map<Hash, Header>, h: Hash, low: nat, high: nat)
    requires Linked(headers)
  {
    forall n: nat :: OverlaidAt(c, d, headers, h, low, high, n)
  }

  lemma {:induction false} OverlaidDown(c: map<nat, Hash>, d: map<nat, Hash>, headers: map<Hash, Header>, h: Hash, low: nat, high: nat)
    requires Linked(headers) && low < high && Overlaid(c, d, headers, h, low + 1, high)
    ensures Overlaid(c, d[low := AncestorAt(headers, h, low)], headers, h, low, high)
  {
    var d' := d[low := AncestorAt(headers, h, low)];
    forall n: nat ensures OverlaidAt(c, d', headers, h, low, high, n) {
      assert OverlaidAt(c, d, headers, h, low + 1, high, n);
    }
  }

  lemma {:induction false} OverlaidUp(c: map<nat, Hash>, d: map<nat, Hash>, headers: map<Hash, Header>, h: Hash, low: nat, high: nat)
    requires Linked(headers) && low <= high && Overlaid(c, d, headers, h, low, high)
    ensures Overlaid(c, d[high := AncestorAt(headers, h, high)], headers, h, low, high + 1)
  {
    var d', top: nat := d[high := AncestorAt(headers, h, high)], high + 1;
    forall n: nat ensures OverlaidAt(c, d', headers, h, low, top, n) {
      assert OverlaidAt(c, d, headers, h, low, high, n);
    }
  }

  /** The entries of the line of `h` below `high`, written downwards to `low`. */
  ghost function BackWrites(headers: map<Hash, Header>, h: Hash, low: nat, high: nat): seq<Write>
    requires Linked(headers)
    decreases high - low
  {
    if low >= high then [] else BackWrites(headers, h, low + 1, high) + [PutCanon(low, AncestorAt(headers, h, low))]
  }

  /** The entries of the line of `h` from `low` to below `high`, upwards, each with the
      header marker moved to it. */
  ghost function ForwardWrites(headers: map<Hash, Header>, h: Hash, low: nat, high: nat): seq<Write>
    requires Linked(headers)
  {
    if low >= high then []
    else
      var a := AncestorAt(headers, h, high - 1);
      ForwardWrites(headers, h, low, high - 1) + [PutCanon(high - 1, a)] + [PutHeadHeader(a)]
  }

  lemma {:induction false} BackWritesEffect(db: Db, h: Hash, low: nat, high: nat)
    requires Linked(db.headers) && low <= high
    ensures var d := Apply(db, BackWrites(db.headers, h, low, high));
            d == db.(canon := d.canon) && Overlaid(db.canon, d.canon, db.headers, h, low, high)
    decreases high - low
  {
    if low < high {
      BackWritesEffect(db, h, low + 1, high);
      ApplySnoc(db, BackWrites(db.headers, h, low + 1, high), PutCanon(low, AncestorAt(db.headers, h, low)));
      var c := Apply(db, BackWrites(db.headers, h, low + 1, high)).canon;
      assert Apply(db, BackWrites(db.headers, h, low, high)).canon == c[low := AncestorAt(db.headers, h, low)];
      OverlaidDown(db.canon, Apply(db, BackWrites(db.headers, h, low + 1, high)).canon, db.headers, h, low, high);
    }
  }

  lemma {:induction false} ForwardOneMore(db: Db, ws: seq<Write>, n: nat, a: Hash)
    ensures var d, e := Apply(db, ws), Apply(db, ws + [PutCanon(n, a)] + [PutHeadHeader(a)]);
            e == d.(canon := d.canon[n := a], headHeader := a)
  {
    ApplySnoc(db, ws, PutCanon(n, a));
    ApplySnoc(db, ws + [PutCanon(n, a)], PutHeadHeader(a));
  }

  lemma {:induction false} ForwardWritesEffect(db: Db, h: Hash, low: nat, high: nat)
    requires Linked(db.headers) && low <= high
    ensures var d := Apply(db, ForwardWrites(db.headers, h, low, high));
            && Overlaid(db.canon, d.canon, db.headers, h, low, high)
            && (low < high ==> d.headHeader == AncestorAt(db.headers, h, high - 1))
            && d == db.(canon := d.canon, headHeader := d.headHeader)
  {
    if low < high {
      ForwardWritesEffect(db, h, low, high - 1);
      var ws, a := ForwardWrites(db.headers, h, low, high - 1), AncestorAt(db.headers, h, high - 1);
      ForwardOneMore(db, ws, high - 1, a);
      OverlaidUp(db.canon, Apply(db, ws).canon, db.headers, h, low, high - 1);
    }
  }

  lemma {:induction false} LineOfLast(store: map<Hash, Header>, headers: seq<Header>, n: nat)
    requires Linked(store) && Contiguous(headers) && AllStored(store, headers) && headers != []
    ensures var first, last := headers[0], headers[|headers| - 1];
            && last.number == first.number + |headers| - 1
            && (n <= first.number ==> AncestorAt(store, last.hash, n) == AncestorAt(store, first.hash, n))
            && (first.number <= n <= last.number ==> AncestorAt(store, last.hash, n) == headers[n - first.number].hash)
    decreases |headers|
  {
    if |headers| > 1 {
      var front := headers[..|headers| - 1];
      assert forall i | 0 <= i < |front| :: front[i] == headers[i];
      LineOfLast(store, front, n);
    }
  }

  datatype BackWalk = Attached(batch: seq<Write>, low: nat) | Detached

  /** Above `n` the line of `h` is stored and the index disagrees with it. */
  ghost predicate Stale(db: Db, h: Header, n: int)
    requires Linked(db.headers)
  {
    forall m: nat | n < m <= h.number :: AncestorAt(db.headers, h.hash, m) != ZERO && !AgreesAt(db, h.hash, m)
  }

  /** A back-walk that wrote the heights from `low` up ended where the index agrees. */
  ghost predicate AttachedAt(db: Db, h: Header, low: nat)
    requires Linked(db.headers)
  {
    && low <= h.number + 1
    && (forall n | low <= n <= h.number :: AncestorAt(db.headers, h.hash, n) != ZERO)
    && (low > 0 ==>
          && AncestorAt(db.headers, h.hash, low - 1) != ZERO
          && low - 1 in db.canon
          && db.canon[low - 1] == AncestorAt(db.headers, h.hash, low - 1))
  }

  lemma {:induction false} NeverAttaches(db: Db, first: Header, cur: Header)
    requires Linked(db.headers) && Stored(db.headers, first) && Stored(db.headers, cur) && cur.parent !in db.headers
    requires AncestorAt(db.headers, first.hash, cur.number) == cur.hash
    requires Stale(db, first, cur.number - 1)
    ensures !Attaches(db, first.hash)
  {
    forall n: nat ensures !AgreesAt(db, first.hash, n) {
      if n < cur.number {
        AncestorTransitive(db.headers, first.hash, cur.number, n);
      }
    }
  }

  lemma {:induction false} ParentNext(headers: map<Hash, Header>, first: Header, cur: Header)
    requires Linked(headers) && Stored(headers, first) && Stored(headers, cur) && cur.number > 0
    requires AncestorAt(headers, first.hash, cur.number) == cur.hash
    ensures cur.parent in headers ==>
              var p := headers[cur.parent];
              Stored(headers, p) && p.number == cur.number - 1 && AncestorAt(headers, first.hash, p.number) == p.hash
  {
    AncestorTransitive(headers, first.hash, cur.number, cur.number - 1);
  }

  /** Overwrites stale numbers from `first` downwards until the index agrees; `low` is the
      lowest height written. */
  method WriteBack(db: Db, first: Header) returns (r: BackWalk)
    requires Linked(db.headers) && Stored(db.headers, first)
    ensures r.Attached? <==> Attaches(db, first.hash)
    ensures r.Attached? ==> r.batch == BackWrites(db.headers, first.hash, r.low, first.number + 1) && AttachedAt(db, first, r.low)
  {
    var batch: seq<Write>, header := [], first;
    while !(header.number in db.canon && db.canon[header.number] == header.hash)
      invariant Stored(db.headers, header) && header.number <= first.number
      invariant AncestorAt(db.headers, first.hash, header.number) == header.hash
      invariant batch == BackWrites(db.headers, first.hash, header.number + 1, first.number + 1)
      invariant Stale(db, first, header.number)
      decreases header.number
    {
      batch := batch + [PutCanon(header.number, header.hash)];
      if header.number == 0 {
        assert AgreesAt(db, first.hash, 0);
        return Attached(batch, 0);
      }
      ParentNext(db.headers, first, header);
      assert Stale(db, first, header.number - 1);
      if header.parent !in db.headers {
        NeverAttaches(db, first, header);
        return Detached;
      }
      header := db.headers[header.parent];
    }
    assert AgreesAt(db, first.hash, header.number);
    r := Attached(batch, header.number + 1);
  }

  lemma {:induction false} NumberOf(headers: seq<Header>, i: nat)
    requires Contiguous(headers) && i < |headers|
    ensures headers[i].number == headers[0].number + i
  {
    if i > 0 {
      NumberOf(headers, i - 1);
    }
  }

  /** Enters the headers themselves and moves the header marker along. The hash of a header
      is taken from its successor's parent field. */
  method WriteForward(ghost store: map<Hash, Header>, headers: seq<Header>) returns (batch: seq<Write>)
    requires Linked(store) && headers != [] && Contiguous(headers) && AllStored(store, headers)
    ensures var first, last := headers[0], headers[|headers| - 1];
            batch == ForwardWrites(store, last.hash, first.number, last.number + 1)
  {
    batch := [];
    ghost var first, last := headers[0], headers[|headers| - 1];
    NumberOf(headers, |headers| - 1);
    for i := 0 to |headers|
      invariant batch == ForwardWrites(store, last.hash, first.number, first.number + i)
    {
      var hash := if i < |headers| - 1 then headers[i + 1].parent else headers[i].hash;
      NumberOf(headers, i);
      LineOfLast(store, headers, headers[i].number);
      batch := batch + [PutCanon(headers[i].number, hash)] + [PutHeadHeader(hash)];
    }
  }

  // ---- The result of a header reorganisation -----------------------------------------

  ghost predicate NothingAbove(canon: map<nat, Hash>, top: nat) {
    forall n | n in canon :: n <= top
  }

  /** No number is missing between the new head and the old one. */
  ghost predicate NoGap(canon: map<nat, Hash>, top: nat, bound: nat) {
    forall n | top < n <= bound :: n in canon
  }

  /** From the base up the index follows the line of `h`. */
  ghost predicate Follows(db: Db, h: Header, base: nat) {
    Linked(db.headers) && forall n | base <= n <= h.number && AncestorAt(db.headers, h.hash, n) != ZERO ::
      n in db.canon && db.canon[n] == AncestorAt(db.headers, h.hash, n)
  }

  /** The index agrees with the old line at `k`, so it agrees with the new line below `k`. */
  lemma {:induction false} AgreementSpreads(db: Db, cur: Hash, h: Hash, base: nat, k: nat, n: nat)
    requires Canonical(db, cur, base) && base <= n <= k && k in db.canon
    requires db.canon[k] == AncestorAt(db.headers, h, k) && AncestorAt(db.headers, h, k) != ZERO
    ensures n in db.canon && db.canon[n] == AncestorAt(db.headers, h, n)
  {
    AncestorTransitive(db.headers, cur, k, n);
    AncestorTransitive(db.headers, h, k, n);
  }

  ghost predicate SwitchedAt(db: Db, headers: seq<Header>, low: nat, e: nat, canon: map<nat, Hash>, n: nat)
    requires Linked(db.headers) && headers != []
  {
    var first, last := headers[0], headers[|headers| - 1];
    if Min(low, first.number) <= n <= last.number then n in canon && canon[n] == AncestorAt(db.headers, last.hash, n)
    else if n in db.canon && !(last.number < n < e) then n in canon && canon[n] == db.canon[n]
    else n !in canon
  }

  /** What the batch of a reorganisation makes of the index: the numbers above the new head
      are dropped up to the first gap, and the new line is entered from `low` up. */
  ghost predicate SwitchedIndex(db: Db, headers: seq<Header>, low: nat, e: nat, canon: map<nat, Hash>)
    requires Linked(db.headers) && headers != []
  {
    forall n: nat :: SwitchedAt(db, headers, low, e, canon, n)
  }

  lemma {:induction false} RootBelow(headers: map<Hash, Header>, h: Hash, base: nat)
    requires Linked(headers) && Rooted(headers, h, base)
    ensures h in headers && base <= headers[h].number
  {
  }

  lemma {:induction false} SwitchFollows(db: Db, cur: Header, base: nat, headers: seq<Header>, low: nat, e: nat, canon: map<nat, Hash>)
    requires Canonical(db, cur.hash, base) && Stored(db.headers, cur)
    requires headers != [] && Contiguous(headers) && AllStored(db.headers, headers)
    requires AttachedAt(db, headers[0], low)
    requires var last := headers[|headers| - 1];
             last.number < e && e !in db.canon && forall n | last.number < n < e :: n in db.canon
    requires SwitchedIndex(db, headers, low, e, canon)
    ensures var last := headers[|headers| - 1];
            && Follows(db.(canon := canon), last, base)
            && (NothingAbove(canon, last.number) <==> NoGap(db.canon, last.number, cur.number))
  {
    var first, last := headers[0], headers[|headers| - 1];
    NumberOf(headers, |headers| - 1);
    forall n: nat | base <= n <= last.number && AncestorAt(db.headers, last.hash, n) != ZERO
      ensures n in canon && canon[n] == AncestorAt(db.headers, last.hash, n)
    {
      LineOfLast(db.headers, headers, n);
      assert SwitchedAt(db, headers, low, e, canon, n);
      if n < low && n < first.number {
        AgreementSpreads(db, cur.hash, first.hash, base, low - 1, n);
      }
    }
    if NoGap(db.canon, last.number, cur.number) {
      assert e > cur.number;
      forall n | n in canon ensures n <= last.number {
        assert SwitchedAt(db, headers, low, e, canon, n);
      }
    } else {
      var n :| last.number < n <= cur.number && n !in db.canon;
      assert cur.number in db.canon by { RootBelow(db.headers, cur.hash, base); }
      assert e <= n;
      assert SwitchedAt(db, headers, low, e, canon, cur.number);
    }
  }

  lemma {:induction false} ExtensionFollows(db: Db, cur: Header, base: nat, headers: seq<Header>, canon: map<nat, Hash>)
    requires Canonical(db, cur.hash, base) && Stored(db.headers, cur)
    requires headers != [] && Contiguous(headers) && AllStored(db.headers, headers) && headers[0].parent == cur.hash
    requires Overlaid(db.canon, canon, db.headers, headers[|headers| - 1].hash, headers[0].number, headers[|headers| - 1].number + 1)
    ensures var last := headers[|headers| - 1];
            Follows(db.(canon := canon), last, base) && NothingAbove(canon, last.number)
  {
    var first, last := headers[0], headers[|headers| - 1];
    NumberOf(headers, |headers| - 1);
    forall n: nat | base <= n <= last.number && AncestorAt(db.headers, last.hash, n) != ZERO
      ensures n in canon && canon[n] == AncestorAt(db.headers, last.hash, n)
    {
      LineOfLast(db.headers, headers, n);
      assert OverlaidAt(db.canon, canon, db.headers, last.hash, first.number, last.number + 1, n);
    }
    forall n | n in canon ensures n <= last.number {
      assert OverlaidAt(db.canon, canon, db.headers, last.hash, first.number, last.number + 1, n);
    }
  }

  /** Following a line that ends at the base, with nothing above, is being canonical. */
  lemma {:induction false} FollowsIsCanonical(db: Db, h: Header, base: nat)
    requires Follows(db, h, base) && Stored(db.headers, h) && Rooted(db.headers, h.hash, base) && NothingAbove(db.canon, h.number)
    ensures Canonical(db, h.hash, base)
  {
    forall n | base <= n <= h.number ensures AncestorAt(db.headers, h.hash, n) != ZERO {
      LineFilled(db.headers, h.hash, base, n);
    }
  }

  // ---- Storing headers ---------------------------------------------------------------------------

  function StoreAll(store: map<Hash, Header>, headers: seq<Header>): map<Hash, Header> {
    if headers == [] then store else StoreAll(store, headers[..|headers| - 1])[headers[|headers| - 1].hash := headers[|headers| - 1]]
  }

  datatype ImportResult = UnknownAncestor | MissingParent | Ignored | Imported

  /** Validated headers: hashes identify headers, and the links stay sound once stored. */
  ghost predicate Importable(store: map<Hash, Header>, headers: seq<Header>) {
    && Linked(StoreAll(store, headers))
    && (forall i | 0 <= i < |headers| :: headers[i].hash in store ==> store[headers[i].hash] == headers[i])
    && (forall i, j | 0 <= i < |headers| && 0 <= j < |headers| && headers[i].hash == headers[j].hash :: i == j)
  }

  /** What becomes of an import: refused when the parent is not stored, ignored when the last header
      is in the index already, stuck with the headers stored when they neither extend the head nor
      attach to the stored chain, and carried out otherwise. */
  ghost function Outcome(db: Db, cur: Header, headers: seq<Header>): ImportResult
    requires headers != [] && Importable(db.headers, headers)
  {
    var last := headers[|headers| - 1];
    var stored := db.(headers := StoreAll(db.headers, headers));
    if headers[0].parent !in db.headers then UnknownAncestor
    else if last.number in db.canon && db.canon[last.number] == last.hash && last.number <= cur.number then Ignored
    else if headers[0].parent != cur.hash && !Attaches(stored, headers[0].hash) then MissingParent
    else Imported
  }

  lemma {:induction false} StoredByAll(store: map<Hash, Header>, headers: seq<Header>)
    requires forall i, j | 0 <= i < |headers| && 0 <= j < |headers| && headers[i].hash == headers[j].hash :: i == j
    requires forall i | 0 <= i < |headers| :: headers[i].hash in store ==> store[headers[i].hash] == headers[i]
    ensures AllStored(StoreAll(store, headers), headers)
    ensures forall h | h in StoreAll(store, headers) :: h in store || exists i :: 0 <= i < |headers| && headers[i].hash == h
    ensures forall h | h in store :: h in StoreAll(store, headers) && StoreAll(store, headers)[h] == store[h]
    decreases |headers|
  {
    if headers != [] {
      var front := headers[..|headers| - 1];
      StoredByAll(store, front);
      assert forall i | 0 <= i < |front| :: headers[i] == front[i];
    }
  }

  /** How many headers at the front are already stored. */
  function KnownPrefix(store: map<Hash, Header>, headers: seq<Header>): (k: nat)
    ensures k <= |headers| && (forall i | 0 <= i < k :: headers[i].hash in store)
    ensures k < |headers| ==> headers[k].hash !in store
  {
    if headers == [] then 0
    else
      var k := KnownPrefix(store, headers[..|headers| - 1]);
      if k == |headers| - 1 && headers[k].hash in store then k + 1 else k
  }

  lemma {:induction false} KnownIsStored(store: map<Hash, Header>, headers: seq<Header>)
    requires forall i | 0 <= i < |headers| :: headers[i].hash in store ==> store[headers[i].hash] == headers[i]
    requires KnownPrefix(store, headers) == |headers|
    ensures StoreAll(store, headers) == store
    decreases |headers|
  {
    if headers != [] {
      var front, last := headers[..|headers| - 1], headers[|headers| - 1];
      assert KnownPrefix(store, front) == |front|;
      KnownIsStored(store, front);
      assert store[last.hash := last] == store;
    }
  }

  /** One more header of a batch, written unless all so far were known. */
  lemma {:induction false} OneMoreHeader(db: Db, batch: seq<Write>, headers: seq<Header>, i: nat)
    requires i < |headers| && Apply(db, batch) == db.(headers := StoreAll(db.headers, headers[..i]))
    requires forall j | 0 <= j < |headers| :: headers[j].hash in db.headers ==> db.headers[headers[j].hash] == headers[j]
    ensures var known := KnownPrefix(db.headers, headers[..i]);
            KnownPrefix(db.headers, headers[..i + 1]) == if known == i && headers[i].hash in db.headers then i + 1 else known
    ensures var stored := db.(headers := StoreAll(db.headers, headers[..i + 1]));
            && Apply(db, batch + [PutHeader(headers[i])]) == stored
            && (KnownPrefix(db.headers, headers[..i + 1]) == i + 1 ==> Apply(db, batch) == stored)
  {
    assert headers[..i + 1][..i] == headers[..i];
    ApplySnoc(db, batch, PutHeader(headers[i]));
    if KnownPrefix(db.headers, headers[..i + 1]) == i + 1 {
      KnownIsStored(db.headers, headers[..i + 1]);
      KnownIsStored(db.headers, headers[..i]);
    }
  }

  lemma {:induction false} StoreKeepsCanonical(db: Db, headers: seq<Header>, h: Hash, base: nat)
    requires Canonical(db, h, base) && Importable(db.headers, headers)
    ensures Canonical(db.(headers := StoreAll(db.headers, headers)), h, base)
    ensures h in StoreAll(db.headers, headers) && StoreAll(db.headers, headers)[h] == db.headers[h]
  {
    var store := StoreAll(db.headers, headers);
    StoredByAll(db.headers, headers);
    AncestorGrows(db.headers, store, h, base);
    forall n: nat | base <= n <= db.headers[h].number
      ensures AncestorAt(store, h, n) == AncestorAt(db.headers, h, n)
    {
      LineFilled(db.headers, h, base, n);
      AncestorGrows(db.headers, store, h, n);
    }
  }

  // ---- A completed reorganisation ----------------------------------------------------------------

  /** From the base up the index has a header exactly when it is on the line of the head. */
  lemma {:induction false} IndexIsLine(db: Db, cur: Header, base: nat, h: Header)
    requires Canonical(db, cur.hash, base) && Stored(db.headers, cur) && Stored(db.headers, h) && base <= h.number
    ensures AncestorAt(db.headers, cur.hash, h.number) == h.hash <==> h.number in db.canon && db.canon[h.number] == h.hash
  {
    RootBelow(db.headers, cur.hash, base);
  }

  /** The header index after a completed reorganisation to `last`. It follows the line of
      `last` from the base up; it is clear above `last` exactly when no number was missing
      between `last` and the old head; and it is canonical whenever that line ends at the base. */
  ghost predicate HeadersSwitched(d: Db, cur: Header, e: Db, last: Header, base: nat) {
    && e == d.(canon := e.canon, headHeader := last.hash)
    && Follows(e, last, base)
    && (NothingAbove(e.canon, last.number) <==> NoGap(d.canon, last.number, cur.number))
    && (Rooted(e.headers, last.hash, base) ==> Canonical(e, last.hash, base))
  }

  /** The deletions and the back-writes of a switch, applied in turn. */
  lemma {:induction false} CutAndBack(db: Db, first: Header, top: nat, low: nat, e: nat)
    requires Linked(db.headers) && top < e && low <= first.number + 1
    ensures var d := Apply(db, DeleteWrites(top, e) + BackWrites(db.headers, first.hash, low, first.number + 1));
            && d == db.(canon := d.canon)
            && Overlaid(Without(db.canon, top, e), d.canon, db.headers, first.hash, low, first.number + 1)
  {
    ApplyConcat(db, DeleteWrites(top, e), BackWrites(db.headers, first.hash, low, first.number + 1));
    DeleteWritesEffect(db, top, e);
    BackWritesEffect(db.(canon := Without(db.canon, top, e)), first.hash, low, first.number + 1);
  }

  /** The forward writes of a switch, applied after writes that changed the index alone. */
  lemma {:induction false} ForwardAfter(db: Db, back: seq<Write>, mid: Db, h: Hash, low: nat, high: nat)
    requires Linked(db.headers) && low < high && mid == Apply(db, back) && mid == db.(canon := mid.canon)
    ensures var d := Apply(db, back + ForwardWrites(db.headers, h, low, high));
            && Overlaid(mid.canon, d.canon, db.headers, h, low, high)
            && d == db.(canon := d.canon, headHeader := AncestorAt(db.headers, h, high - 1))
  {
    ApplyConcat(db, back, ForwardWrites(db.headers, h, low, high));
    ForwardWritesEffect(mid, h, low, high);
  }

  lemma {:induction false} SwitchIndexes(db: Db, headers: seq<Header>, low: nat, e: nat,
                                         c0: map<nat, Hash>, c1: map<nat, Hash>, c2: map<nat, Hash>)
    requires Linked(db.headers) && headers != [] && Contiguous(headers) && AllStored(db.headers, headers)
    requires var first, last := headers[0], headers[|headers| - 1];
             && last.number < e && low <= first.number + 1
             && c0 == Without(db.canon, last.number, e)
             && Overlaid(c0, c1, db.headers, first.hash, low, first.number + 1)
             && Overlaid(c1, c2, db.headers, last.hash, first.number, last.number + 1)
    ensures SwitchedIndex(db, headers, low, e, c2)
  {
    var first, last := headers[0], headers[|headers| - 1];
    NumberOf(headers, |headers| - 1);
    forall n: nat ensures SwitchedAt(db, headers, low, e, c2, n) {
      LineOfLast(db.headers, headers, n);
      assert OverlaidAt(c0, c1, db.headers, first.hash, low, first.number + 1, n);
      assert OverlaidAt(c1, c2, db.headers, last.hash, first.number, last.number + 1, n);
    }
  }

  lemma {:induction false} SwitchEffect(db: Db, headers: seq<Header>, low: nat, e: nat)
    requires Linked(db.headers) && headers != [] && Contiguous(headers) && AllStored(db.headers, headers)
    requires headers[|headers| - 1].number < e && low <= headers[0].number + 1
    ensures var first, last := headers[0], headers[|headers| - 1];
            var d := Apply(db, DeleteWrites(last.number, e) + BackWrites(db.headers, first.hash, low, first.number + 1)
                               + ForwardWrites(db.headers, last.hash, first.number, last.number + 1));
            SwitchedIndex(db, headers, low, e, d.canon) && d == db.(canon := d.canon, headHeader := last.hash)
  {
    var first, last := headers[0], headers[|headers| - 1];
    NumberOf(headers, |headers| - 1);
    LineOfLast(db.headers, headers, last.number);
    var back := DeleteWrites(last.number, e) + BackWrites(db.headers, first.hash, low, first.number + 1);
    var forward := ForwardWrites(db.headers, last.hash, first.number, last.number + 1);
    CutAndBack(db, first, last.number, low, e);
    var d1 := Apply(db, back);
    ForwardAfter(db, back, d1, last.hash, first.number, last.number + 1);
    SwitchIndexes(db, headers, low, e, Without(db.canon, last.number, e), d1.canon, Apply(db, back + forward).canon);
  }

  lemma {:induction false} CanonicalWhenRooted(d: Db, cur: Header, e: Db, last: Header, base: nat)
    requires Canonical(d, cur.hash, base) && Stored(d.headers, cur) && Stored(d.headers, last)
    requires e == d.(canon := e.canon, headHeader := last.hash) && Follows(e, last, base)
    requires NothingAbove(e.canon, last.number) <==> NoGap(d.canon, last.number, cur.number)
    ensures Rooted(e.headers, last.hash, base) ==> Canonical(e, last.hash, base)
  {
    if Rooted(e.headers, last.hash, base) {
      RootBelow(e.headers, last.hash, base);
      FollowsIsCanonical(e, last, base);
    }
  }

  lemma {:induction false} SwitchDone(d: Db, cur: Header, base: nat, headers: seq<Header>, low: nat, e: nat)
    requires Canonical(d, cur.hash, base) && Stored(d.headers, cur)
    requires headers != [] && Contiguous(headers) && AllStored(d.headers, headers)
    requires AttachedAt(d, headers[0], low)
    requires var last := headers[|headers| - 1];
             last.number < e && e !in d.canon && forall n | last.number < n < e :: n in d.canon
    ensures var first, last := headers[0], headers[|headers| - 1];
            HeadersSwitched(d, cur,
                            Apply(d, DeleteWrites(last.number, e) + BackWrites(d.headers, first.hash, low, first.number + 1)
                                     + ForwardWrites(d.headers, last.hash, first.number, last.number + 1)),
                            last, base)
  {
    var first, last := headers[0], headers[|headers| - 1];
    SwitchEffect(d, headers, low, e);
    var r := Apply(d, DeleteWrites(last.number, e) + BackWrites(d.headers, first.hash, low, first.number + 1)
                      + ForwardWrites(d.headers, last.hash, first.number, last.number + 1));
    SwitchFollows(d, cur, base, headers, low, e, r.canon);
    CanonicalWhenRooted(d, cur, r, last, base);
  }

  lemma {:induction false} ExtensionDone(d: Db, cur: Header, base: nat, headers: seq<Header>)
    requires Canonical(d, cur.hash, base) && Stored(d.headers, cur)
    requires headers != [] && Contiguous(headers) && AllStored(d.headers, headers) && headers[0].parent == cur.hash
    ensures var first, last := headers[0], headers[|headers| - 1];
            HeadersSwitched(d, cur, Apply(d, ForwardWrites(d.headers, last.hash, first.number, last.number + 1)), last, base)
  {
    var first, last := headers[0], headers[|headers| - 1];
    NumberOf(headers, |headers| - 1);
    ForwardWritesEffect(d, last.hash, first.number, last.number + 1);
    LineOfLast(d.headers, headers, last.number);
    var r := Apply(d, ForwardWrites(d.headers, last.hash, first.number, last.number + 1));
    ExtensionFollows(d, cur, base, headers, r.canon);
    CanonicalWhenRooted(d, cur, r, last, base);
  }

  // ---- The header chain --------------------------------------------------------------------------

  class HeaderChain {
    ghost const base: nat
    var db: Db
    var currentHeader: Header
    var currentHeaderHash: Hash

    ghost predicate Valid()
      reads this
    {
      && Canonical(db, currentHeader.hash, base)
      && Stored(db.headers, currentHeader)
      && currentHeaderHash == currentHeader.hash == db.headHeader
    }

    /** A header chain over a database whose index is that of `head`. */
    constructor (ghost base: nat, db: Db, head: Header)
      requires Canonical(db, head.hash, base) && Stored(db.headers, head) && db.headHeader == head.hash
      ensures Valid() && this.base == base && this.db == db && currentHeader == head && currentHeaderHash == head.hash
    {
      this.base, this.db, currentHeader, currentHeaderHash := base, db, head, head.hash;
    }

    /** Makes the last of the given stored headers the head. */
    method Reorg(headers: seq<Header>) returns (ok: bool)
      requires Valid() && Contiguous(headers) && AllStored(db.headers, headers)
      modifies this
      ensures ok <==> headers == [] || headers[0].parent == old(currentHeaderHash) || Attaches(old(db), headers[0].hash)
      ensures !ok || headers == [] ==> unchanged(this)
      ensures ok && headers != [] ==>
                var last := headers[|headers| - 1];
                && currentHeader == last && currentHeaderHash == last.hash
                && HeadersSwitched(old(db), old(currentHeader), db, last, base)
    {
      if headers == [] {
        return true;
      }
      var first, last := headers[0], headers[|headers| - 1];
      var batch: seq<Write> := [];
      ghost var low, e := 0, 0;
      if first.parent != currentHeaderHash {
        var dels, gap := DeleteAbove(db, last.number, last.number + currentHeader.number);
        var back := WriteBack(db, first);
        if back.Detached? {
          return false;
        }
        batch := dels + back.batch;
        low, e := back.low, gap;
      }
      var forward := WriteForward(db.headers, headers);
      ghost var d, cur := db, currentHeader;
      db := Apply(db, batch + forward);
      currentHeaderHash := last.hash;
      currentHeader := last;
      if first.parent != cur.hash {
        SwitchDone(d, cur, base, headers, low, e);
      } else {
        assert batch + forward == forward;
        ExtensionDone(d, cur, base, headers);
      }
      ok := true;
    }

    /** Stores headers whose parent is known, leaving the head where it is; yields how many
        were written, or None when the parent is unknown. */
    method WriteHeaders(headers: seq<Header>) returns (r: Option<nat>)
      requires Valid() && Contiguous(headers) && Importable(db.headers, headers)
      modifies this`db
      ensures r.None? <==> headers != [] && headers[0].parent !in old(db).headers
      ensures r.None? ==> db == old(db)
      ensures r.Some? ==>
                && db == old(db).(headers := StoreAll(old(db).headers, headers))
                && Valid()
                && r.value == |headers| - KnownPrefix(old(db).headers, headers)
    {
      if headers == [] {
        return Some(0);
      }
      if headers[0].parent !in db.headers {
        return None;
      }
      var batch: seq<Write>, inserted, parentKnown := [], 0, true;
      for i := 0 to |headers|
        invariant db == old(db)
        invariant Apply(db, batch) == db.(headers := StoreAll(db.headers, headers[..i]))
        invariant parentKnown <==> KnownPrefix(db.headers, headers[..i]) == i
        invariant inserted == i - KnownPrefix(db.headers, headers[..i])
      {
        var header := headers[i];
        var hash := if i < |headers| - 1 then headers[i + 1].parent else header.hash;
        var alreadyKnown := parentKnown && hash in db.headers;
        OneMoreHeader(db, batch, headers, i);
        if !alreadyKnown {
          batch := batch + [PutHeader(header)];
          inserted := inserted + 1;
        }
        parentKnown := alreadyKnown;
      }
      assert headers[..|headers|] == headers;
      StoreKeepsCanonical(db, headers, currentHeader.hash, base);
      db := Apply(db, batch);
      r := Some(inserted);
    }

    /** Imports headers and makes the last one the head, unless it is already canonical. Which of the
        four outcomes it is depends on the state before the call alone. */
    method WriteHeadersAndSetHead(headers: seq<Header>) returns (r: ImportResult)
      requires Valid() && headers != [] && Contiguous(headers) && Importable(db.headers, headers)
      modifies this
      ensures r == Outcome(old(db), old(currentHeader), headers)
      ensures var stored := old(db).(headers := StoreAll(old(db).headers, headers));
              var last := headers[|headers| - 1];
              match r
              case UnknownAncestor => unchanged(this)
              case MissingParent => db == stored && currentHeader == old(currentHeader) && Valid()
              case Ignored =>
                && db == stored && currentHeader == old(currentHeader) && Valid()
                && (base <= last.number ==> OnLine(db.headers, last, currentHeader.hash))
              case Imported => currentHeader == last && HeadersSwitched(stored, old(currentHeader), db, last, base)
      ensures var last, parent := headers[|headers| - 1], headers[0].parent;
              parent in old(db).headers && base <= last.number ==>
                var stored := old(db).(headers := StoreAll(old(db).headers, headers));
                if AncestorAt(stored.headers, old(currentHeader).hash, last.number) == last.hash
                then currentHeader == old(currentHeader) && db.canon == old(db).canon
                else currentHeader == if parent == old(currentHeader).hash || Attaches(stored, headers[0].hash) then last else old(currentHeader)
    {
      var inserted := WriteHeaders(headers);
      if inserted.None? {
        return UnknownAncestor;
      }
      StoredByAll(old(db).headers, headers);
      var last := headers[|headers| - 1];
      if base <= last.number {
        IndexIsLine(db, currentHeader, base, last);
      }
      if last.number in db.canon && db.canon[last.number] == last.hash && last.number <= currentHeader.number {
        return Ignored;
      }
      var ok := Reorg(headers);
      r := if ok then Imported else MissingParent;
    }
  }

  // ---- Inputs that show the two gaps -----------------------------------------------------

  /** A chain of one block, and beside it a stored orphan at height 5. */
  function OrphanDb(): Db {
    Db(map[Hash(1) := Header(Hash(1), ZERO, 0, 0, ZERO), Hash(2) := Header(Hash(2), Hash(9), 5, 0, ZERO)],
       map[], map[0 := Hash(1)], map[], Hash(1), Hash(1), Hash(1))
  }

  lemma {:induction false} NothingToAttachTo(db: Db, child: Header)
    requires Linked(db.headers) && Stored(db.headers, child) && child.parent in db.headers && db.canon.Keys == {0}
    requires db.headers[child.parent].number > 0 && db.headers[child.parent].parent !in db.headers
    ensures !Attaches(db, child.hash)
  {
    forall n: nat ensures !AgreesAt(db, child.hash, n) {
      var orphan := db.headers[child.parent];
      assert AncestorAt(db.headers, orphan.parent, n) == ZERO;
      assert AncestorAt(db.headers, child.parent, n) == if n == orphan.number then child.parent else ZERO;
    }
  }

  /** The import is not all-or-nothing: a child of the stored orphan is written, and then the
      reorganisation to it finds a parent missing. */
  lemma {:induction false} OrphansChild()
    ensures var cur, child := Header(Hash(1), ZERO, 0, 0, ZERO), Header(Hash(3), Hash(2), 6, 0, ZERO);
            && Canonical(OrphanDb(), cur.hash, 0) && Stored(OrphanDb().headers, cur)
            && Importable(OrphanDb().headers, [child])
            && Outcome(OrphanDb(), cur, [child]) == MissingParent
            && child.hash !in OrphanDb().headers
  {
    var db, cur, child := OrphanDb(), Header(Hash(1), ZERO, 0, 0, ZERO), Header(Hash(3), Hash(2), 6, 0, ZERO);
    assert [child][..0] == [];
    assert StoreAll(db.headers, []) == db.headers;
    assert AncestorAt(db.headers, cur.hash, 0) == cur.hash;
    NothingToAttachTo(db.(headers := StoreAll(db.headers, [child])), child);
  }

  method ImportOrphansChild() returns (r: ImportResult, db: Db)
    ensures r == MissingParent && Hash(3) in db.headers && Hash(3) !in OrphanDb().headers
  {
    OrphansChild();
    var child := Header(Hash(3), Hash(2), 6, 0, ZERO);
    StoredByAll(OrphanDb().headers, [child]);
    assert Stored(StoreAll(OrphanDb().headers, [child]), [child][0]);
    var hc := new HeaderChain(0, OrphanDb(), Header(Hash(1), ZERO, 0, 0, ZERO));
    r := hc.WriteHeadersAndSetHead([child]);
    db := hc.db;
  }

  /** An X Layer chain: the index jumps from the genesis block to the first migrated block. Beside it
      a block built on genesis is stored. */
  function GappedDb(): Db {
    Db(map[Hash(1) := Header(Hash(1), ZERO, 0, 0, ZERO), Hash(2) := Header(Hash(2), ZERO, 5, 0, ZERO),
           Hash(3) := Header(Hash(3), Hash(1), 1, 0, ZERO)],
       map[], map[0 := Hash(1), 5 := Hash(2)], map[], Hash(2), Hash(2), Hash(2))
  }

  lemma {:induction false} GapLeavesStaleNumbers()
    ensures var first, next := Header(Hash(2), ZERO, 5, 0, ZERO), Header(Hash(3), Hash(1), 1, 0, ZERO);
            && Canonical(GappedDb(), first.hash, 5) && Stored(GappedDb().headers, first) && AllStored(GappedDb().headers, [next])
            && Attaches(GappedDb(), next.hash) && !NoGap(GappedDb().canon, next.number, first.number)
  {
    var next := Header(Hash(3), Hash(1), 1, 0, ZERO);
    assert AncestorAt(GappedDb().headers, Hash(1), 0) == Hash(1);
    assert AncestorAt(GappedDb().headers, next.hash, 0) == Hash(1);
    assert AgreesAt(GappedDb(), next.hash, 0);
    assert 2 !in GappedDb().canon;
  }

  /** Making that block the head succeeds and leaves a number above it in the index. */
  method SwitchBelowGap() returns (ok: bool, head: Header, db: Db)
    ensures ok && head.number == 1 && exists n :: n in db.canon && n > head.number
  {
    GapLeavesStaleNumbers();
    var hc := new HeaderChain(5, GappedDb(), Header(Hash(2), ZERO, 5, 0, ZERO));
    ok := hc.Reorg([Header(Hash(3), Hash(1), 1, 0, ZERO)]);
    head, db := hc.currentHeader, hc.db;
    assert !NothingAbove(db.canon, 1);
  }
}
