/** Rewinding the chain to a lower head: markers first, deletions last, so that a crash
    between any two durable writes leaves markers that name stored headers. */
module SetHeads {
  import opened Common
  import opened ChainDb
  import opened Forks
  import opened Rewind
  import opened Descents

  // ---- Key-value store and ancient store --------------------------------------------

  /** The headers of the ancient store by hash. */
  function Frozen(ancient: seq<Header>): map<Hash, Header> {
    if ancient == [] then map[]
    else
      var last := ancient[|ancient| - 1];
      Frozen(ancient[..|ancient| - 1])[last.hash := last]
  }

  /** Every header that can be read. */
  function All(headers: map<Hash, Header>, ancient: seq<Header>): map<Hash, Header> {
    headers + Frozen(ancient)
  }

  ghost predicate FrozenApart(ancient: seq<Header>, i: nat, j: nat) {
    && (i < |ancient| ==> ancient[i].number == i)
    && (i < |ancient| && j < |ancient| && ancient[i].hash == ancient[j].hash ==> i == j)
  }

  /** The ancient store holds one header per height, all different. */
  ghost predicate WellFrozen(ancient: seq<Header>) {
    forall i: nat, j: nat :: FrozenApart(ancient, i, j)
  }

  lemma {:induction false} FrozenByHeight(ancient: seq<Header>)
    requires WellFrozen(ancient)
    ensures forall i | 0 <= i < |ancient| :: ancient[i].number == i
    ensures forall i, j | 0 <= i < |ancient| && 0 <= j < |ancient| && ancient[i].hash == ancient[j].hash :: i == j
  {
    forall i: nat, j: nat | i < |ancient| && j < |ancient|
      ensures ancient[i].number == i && (ancient[i].hash == ancient[j].hash ==> i == j)
    {
      assert FrozenApart(ancient, i, j);
    }
  }

  lemma {:induction false} FrozenFront(ancient: seq<Header>, k: nat)
    requires WellFrozen(ancient) && k <= |ancient|
    ensures WellFrozen(ancient[..k])
  {
    forall i: nat, j: nat ensures FrozenApart(ancient[..k], i, j) {
      assert FrozenApart(ancient, i, j);
    }
  }

  lemma {:induction false} FrozenContents(ancient: seq<Header>, h: Hash)
    requires WellFrozen(ancient)
    ensures h in Frozen(ancient) <==> exists i :: 0 <= i < |ancient| && ancient[i].hash == h
    ensures h in Frozen(ancient) ==> Frozen(ancient)[h].number < |ancient| && ancient[Frozen(ancient)[h].number] == Frozen(ancient)[h]
    ensures h in Frozen(ancient) ==> Frozen(ancient)[h].hash == h
    decreases |ancient|
  {
    if ancient != [] {
      var front := ancient[..|ancient| - 1];
      FrozenByHeight(ancient);
      FrozenFront(ancient, |front|);
      assert forall i | 0 <= i < |front| :: front[i] == ancient[i];
      FrozenContents(front, h);
    }
  }

  ghost predicate FrozenAgrees(headers: map<Hash, Header>, ancient: seq<Header>, i: nat) {
    i < |ancient| && ancient[i].hash in headers ==> headers[ancient[i].hash] == ancient[i]
  }

  /** The two stores agree on what a hash means. */
  ghost predicate Stores(headers: map<Hash, Header>, ancient: seq<Header>) {
    && WellFrozen(ancient)
    && (forall i: nat :: FrozenAgrees(headers, ancient, i))
    && Linked(All(headers, ancient))
  }

  function GetHeader(headers: map<Hash, Header>, ancient: seq<Header>, h: Hash, n: int): Option<Header> {
    if 0 <= n < |ancient| && ancient[n].hash == h then Some(ancient[n])
    else if h in headers && headers[h].number == n then Some(headers[h])
    else None
  }

  lemma {:induction false} KeyValueReadable(headers: map<Hash, Header>, ancient: seq<Header>)
    requires Stores(headers, ancient)
    ensures forall h | h in headers :: h in All(headers, ancient) && All(headers, ancient)[h] == headers[h]
  {
    forall h | h in headers ensures All(headers, ancient)[h] == headers[h] {
      FrozenContents(ancient, h);
      assert forall i: nat :: FrozenAgrees(headers, ancient, i);
      if h in Frozen(ancient) {
        assert FrozenAgrees(headers, ancient, Frozen(ancient)[h].number);
      }
    }
  }

  lemma {:induction false} GetHeaderReads(headers: map<Hash, Header>, ancient: seq<Header>, h: Hash, n: int)
    requires Stores(headers, ancient)
    ensures GetHeader(headers, ancient, h, n)
            == if h in All(headers, ancient) && All(headers, ancient)[h].number == n then Some(All(headers, ancient)[h]) else None
  {
    FrozenByHeight(ancient);
    FrozenContents(ancient, h);
    KeyValueReadable(headers, ancient);
  }

  // ---- Deletions ----------------------------------------------------------------------

  ghost predicate IsDeletion(w: Write) {
    w.DelHeader? || w.DelBody? || w.DelCanon?
  }

  /** What a prefix of a list of deletions leaves. */
  lemma {:induction false} DeletionEffect(db: Db, ws: seq<Write>, k: nat)
    requires k <= |ws| && forall i | 0 <= i < |ws| :: IsDeletion(ws[i])
    ensures var d := ApplyFirst(db, ws, k);
            && (forall h :: h in d.headers <==> h in db.headers && DelHeader(h) !in ws[..k])
            && (forall h | h in d.headers :: d.headers[h] == db.headers[h])
            && (forall n :: n in d.canon <==> n in db.canon && DelCanon(n) !in ws[..k])
            && (forall n | n in d.canon :: d.canon[n] == db.canon[n])
            && d.headHeader == db.headHeader && d.headFast == db.headFast && d.headBlock == db.headBlock
  {
    if k > 0 {
      DeletionEffect(db, ws, k - 1);
      assert ws[..k] == ws[..k - 1] + [ws[k - 1]];
    }
  }

  lemma {:induction false} BodiesLeft(db: Db, ws: seq<Write>, k: nat)
    requires k <= |ws| && forall i | 0 <= i < |ws| :: IsDeletion(ws[i])
    ensures var d := ApplyFirst(db, ws, k);
            && (forall h :: h in d.bodies <==> h in db.bodies && DelBody(h) !in ws[..k])
            && (forall h | h in d.bodies :: d.bodies[h] == db.bodies[h])
            && d.lookups == db.lookups
  {
    if k > 0 {
      BodiesLeft(db, ws, k - 1);
      assert ws[..k] == ws[..k - 1] + [ws[k - 1]];
    }
  }

  ghost predicate HeaderDeleted(ws: seq<Write>, headers: map<Hash, Header>, w: map<Hash, Header>, v: set<nat>, frozen: nat, h: Hash) {
    && (h in headers && headers[h].number in v ==> DelHeader(h) in ws)
    && (DelHeader(h) in ws ==> h in w && w[h].number in v)
    && (DelBody(h) in ws <==> DelHeader(h) in ws && h in w && frozen <= w[h].number)
  }

  ghost predicate NumberDeleted(ws: seq<Write>, v: set<nat>, n: nat) {
    DelCanon(n) in ws <==> n in v
  }

  /** The headers and numbers at the heights `v` are deleted, all of them and no others, and the bodies of
      those that are not frozen. */
  ghost predicate Deletes(ws: seq<Write>, headers: map<Hash, Header>, w: map<Hash, Header>, v: set<nat>, frozen: nat) {
    && (forall i | 0 <= i < |ws| :: IsDeletion(ws[i]))
    && (forall h :: HeaderDeleted(ws, headers, w, v, frozen, h))
    && (forall n: nat :: NumberDeleted(ws, v, n))
  }

  lemma {:induction false} DeletesConcat(a: seq<Write>, b: seq<Write>, headers: map<Hash, Header>, w: map<Hash, Header>, v: set<nat>, u: set<nat>,
                                         frozen: nat)
    requires Deletes(a, headers, w, v, frozen) && Deletes(b, headers, w, u, frozen)
    ensures Deletes(a + b, headers, w, v + u, frozen)
  {
    forall h ensures HeaderDeleted(a + b, headers, w, v + u, frozen, h) {
      assert HeaderDeleted(a, headers, w, v, frozen, h) && HeaderDeleted(b, headers, w, u, frozen, h);
    }
    forall n: nat ensures NumberDeleted(a + b, v + u, n) {
      assert NumberDeleted(a, v, n) && NumberDeleted(b, u, n);
    }
  }

  ghost predicate HasHeight(headers: map<Hash, Header>, n: nat) {
    exists h :: h in headers && headers[h].number == n
  }

  /** All hashes stored at a height, in some order. */
  method ReadAllHashes(headers: map<Hash, Header>, n: nat) returns (hashes: seq<Hash>)
    ensures forall h :: h in hashes <==> h in headers && headers[h].number == n
  {
    hashes := [];
    var todo := set h | h in headers && headers[h].number == n;
    while todo != {}
      invariant forall h :: h in hashes || h in todo <==> h in headers && headers[h].number == n
      decreases |todo|
    {
      var h :| h in todo;
      hashes := hashes + [h];
      todo := todo - {h};
    }
  }

  /** The deletions for one height: every fork's header (and body, unless frozen), then the
      number. A height without stored headers is taken to be frozen. */
  method DeleteHeight(headers: map<Hash, Header>, ghost w: map<Hash, Header>, n: nat, hdr: Header, frozen: nat) returns (ws: seq<Write>)
    requires forall h | h in headers :: h in w && w[h] == headers[h]
    requires HasHeight(headers, n) || (Stored(w, hdr) && hdr.number == n)
    ensures Deletes(ws, headers, w, {n}, frozen)
  {
    var hashes := ReadAllHashes(headers, n);
    if |hashes| == 0 {
      hashes := [hdr.hash];
    }
    ws := [];
    for i := 0 to |hashes|
      invariant forall j | 0 <= j < |ws| :: ws[j].DelHeader? || ws[j].DelBody?
      invariant forall h :: DelHeader(h) in ws <==> h in hashes[..i]
      invariant forall h :: DelBody(h) in ws <==> frozen <= n && h in hashes[..i]
    {
      assert hashes[..i + 1] == hashes[..i] + [hashes[i]];
      if n + 1 > frozen {
        ws := ws + [DelBody(hashes[i])];
      }
      ws := ws + [DelHeader(hashes[i])];
    }
    assert hashes[..|hashes|] == hashes;
    ws := ws + [DelCanon(n)];
  }

  ghost function Heights(low: nat, high: nat): (s: set<nat>)
    ensures forall n: nat :: n in s <==> low <= n < high
    decreases high - low
  {
    if low >= high then {} else {low} + Heights(low + 1, high)
  }

  /** The first height above `num` without a stored header is `e`. */
  ghost predicate RunsTo(headers: map<Hash, Header>, num: nat, e: nat) {
    e > num && !HasHeight(headers, e) && forall n | num < n < e :: HasHeight(headers, n)
  }

  /** Finds it. */
  method RunAbove(headers: map<Hash, Header>, num: nat) returns (e: nat)
    ensures RunsTo(headers, num, e)
  {
    e := num + 1;
    ghost var left := set h | h in headers && headers[h].number >= e;
    while true
      invariant e > num && forall n | num < n < e :: HasHeight(headers, n)
      invariant left == set h | h in headers && headers[h].number >= e
      decreases left
    {
      var hashes := ReadAllHashes(headers, e);
      if |hashes| == 0 {
        return;
      }
      assert hashes[0] in hashes;
      assert hashes[0] in left;
      e := e + 1;
      left := set h | h in headers && headers[h].number >= e;
    }
  }

  /** Deletes the heights from below `e` down to `num`. */
  method DeleteRun(headers: map<Hash, Header>, ghost w: map<Hash, Header>, num: nat, e: nat, hdr: Header, frozen: nat) returns (ws: seq<Write>)
    requires forall h | h in headers :: h in w && w[h] == headers[h]
    requires num < e && Stored(w, hdr) && hdr.number == num
    requires forall n | num < n < e :: HasHeight(headers, n)
    ensures Deletes(ws, headers, w, Heights(num, e), frozen)
  {
    ws := [];
    var n := e;
    while n > num
      invariant num <= n <= e
      invariant Deletes(ws, headers, w, Heights(n, e), frozen)
    {
      n := n - 1;
      var one := DeleteHeight(headers, w, n, hdr, frozen);
      DeletesConcat(ws, one, headers, w, Heights(n + 1, e), {n}, frozen);
      assert Heights(n + 1, e) + {n} == Heights(n, e);
      ws := ws + one;
    }
  }

  // ---- Crash points -----------------------------------------------------------------

  ghost predicate MarkersStored(d: Db, ancient: seq<Header>) {
    var w := All(d.headers, ancient);
    d.headHeader in w && d.headFast in w && d.headBlock in w
  }

  /** After every prefix of the durable writes, the markers name stored headers. */
  ghost predicate CrashSafe(db: Db, log: seq<Write>, ancient: seq<Header>) {
    forall k | 0 <= k <= |log| :: MarkersStored(ApplyFirst(db, log, k), ancient)
  }

  lemma {:induction false} CrashSafeConcat(db: Db, a: seq<Write>, b: seq<Write>, ancient: seq<Header>)
    requires CrashSafe(db, a, ancient) && CrashSafe(Apply(db, a), b, ancient)
    ensures CrashSafe(db, a + b, ancient)
  {
    forall k | 0 <= k <= |a + b| ensures MarkersStored(ApplyFirst(db, a + b, k), ancient) {
      ApplyFirstConcat(db, a, b, k);
    }
  }

  /** The durable writes `ws` took `db` to `d`, safely at each of them. */
  ghost predicate Issued(db: Db, ws: seq<Write>, d: Db, ancient: seq<Header>) {
    CrashSafe(db, ws, ancient) && d == Apply(db, ws)
  }

  lemma {:induction false} IssuedConcat(db: Db, a: seq<Write>, mid: Db, b: seq<Write>, d: Db, ancient: seq<Header>)
    requires Issued(db, a, mid, ancient) && Issued(mid, b, d, ancient)
    ensures Issued(db, a + b, d, ancient)
  {
    CrashSafeConcat(db, a, b, ancient);
    ApplyConcat(db, a, b);
  }

  lemma {:induction false} ConcatAssociative(a: seq<Write>, b: seq<Write>, c: seq<Write>)
    ensures a + b + c == a + (b + c)
  {
  }

  /** Only the markers differ. */
  ghost predicate SameData(a: Db, b: Db) {
    b == a.(headHeader := b.headHeader, headBlock := b.headBlock, headFast := b.headFast)
  }

  lemma {:induction false} OneMoreIssued(db: Db, a: seq<Write>, mid: Db, b: seq<Write>, d: Db, ancient: seq<Header>,
                                         log: seq<Write>, log': seq<Write>, log'': seq<Write>)
    requires Issued(db, a, mid, ancient) && Issued(mid, b, d, ancient)
    requires log' == log + a && log'' == log' + b && SameData(db, mid) && SameData(mid, d)
    ensures Issued(db, a + b, d, ancient) && log'' == log + (a + b) && SameData(db, d)
  {
    IssuedConcat(db, a, mid, b, d, ancient);
    ConcatAssociative(log, a, b);
  }

  /** A batch that only moves markers to headers of `w`. */
  ghost predicate Moves(ws: seq<Write>, w: map<Hash, Header>) {
    forall i | 0 <= i < |ws| :: (ws[i].PutHeadHeader? || ws[i].PutHeadFast? || ws[i].PutHeadBlock?) && ws[i].hash in w
  }

  lemma {:induction false} MovesEffect(db: Db, ws: seq<Write>, ancient: seq<Header>, k: nat)
    requires Moves(ws, All(db.headers, ancient)) && MarkersStored(db, ancient) && k <= |ws|
    ensures var d := ApplyFirst(db, ws, k);
            && d == db.(headHeader := d.headHeader, headFast := d.headFast, headBlock := d.headBlock)
            && MarkersStored(d, ancient)
  {
    if k > 0 {
      MovesEffect(db, ws, ancient, k - 1);
    }
  }

  lemma {:induction false} MovesSafe(db: Db, ws: seq<Write>, ancient: seq<Header>)
    requires Moves(ws, All(db.headers, ancient)) && MarkersStored(db, ancient)
    ensures CrashSafe(db, ws, ancient)
    ensures var d := Apply(db, ws);
            d == db.(headHeader := d.headHeader, headFast := d.headFast, headBlock := d.headBlock)
  {
    forall k | 0 <= k <= |ws| ensures MarkersStored(ApplyFirst(db, ws, k), ancient) {
      MovesEffect(db, ws, ancient, k);
    }
    MovesEffect(db, ws, ancient, |ws|);
  }

  /** A header at a height that is not deleted stays readable throughout. */
  lemma {:induction false} StaysStored(db: Db, ws: seq<Write>, ancient: seq<Header>, v: set<nat>, h: Hash, k: nat)
    requires Deletes(ws, db.headers, All(db.headers, ancient), v, |ancient|) && k <= |ws|
    requires h in All(db.headers, ancient) && All(db.headers, ancient)[h].number !in v
    ensures h in All(ApplyFirst(db, ws, k).headers, ancient)
  {
    DeletionEffect(db, ws, k);
    assert HeaderDeleted(ws, db.headers, All(db.headers, ancient), v, |ancient|, h);
    assert DelHeader(h) !in ws;
    assert ws == ws[..k] + ws[k..];
  }

  /** Deleting only headers above every marker is safe at each step. */
  lemma {:induction false} DeletionsSafe(db: Db, ws: seq<Write>, ancient: seq<Header>, v: set<nat>)
    requires Deletes(ws, db.headers, All(db.headers, ancient), v, |ancient|)
    requires MarkersStored(db, ancient)
    requires var w := All(db.headers, ancient);
             w[db.headHeader].number !in v && w[db.headFast].number !in v && w[db.headBlock].number !in v
    ensures CrashSafe(db, ws, ancient)
  {
    forall k | 0 <= k <= |ws| ensures MarkersStored(ApplyFirst(db, ws, k), ancient) {
      DeletionEffect(db, ws, k);
      StaysStored(db, ws, ancient, v, db.headHeader, k);
      StaysStored(db, ws, ancient, v, db.headFast, k);
      StaysStored(db, ws, ancient, v, db.headBlock, k);
    }
  }

  // ---- The chain being rewound -------------------------------------------------------

  /** The durable markers name these three headers. */
  ghost predicate Marks(d: Db, header: Header, block: Header, snap: Header) {
    d.headHeader == header.hash && d.headBlock == block.hash && d.headFast == snap.hash
  }

  ghost predicate SoundAt(headers: map<Hash, Header>, ancient: seq<Header>, genesis: Header, header: Header, block: Header, snap: Header) {
    && Stores(headers, ancient)
    && Based(All(headers, ancient), genesis)
    && Stored(All(headers, ancient), header)
    && Stored(All(headers, ancient), block)
    && Stored(All(headers, ancient), snap)
  }

  /** The heights cleared by a rewind from `start` to height `top`: the heights of the line of
      `start` above `top`, and the run of occupied heights above `start` up to `e`. */
  ghost predicate Cleared(w: map<Hash, Header>, start: Header, top: nat, e: nat, n: nat)
    requires Linked(w)
  {
    (top < n <= start.number && AncestorAt(w, start.hash, n) != ZERO) || start.number < n < e
  }

  /** Going from `hdr` to its parent, or to genesis when the parent is missing, clears
      exactly the height of `hdr`. */
  lemma {:induction false} ClearedStep(w: map<Hash, Header>, start: Header, hdr: Header, parent: Header, e: nat, n: nat)
    requires Linked(w) && Stored(w, start) && Stored(w, hdr) && OnLine(w, hdr, start.hash) && hdr.number > 0
    requires if hdr.parent in w then parent == w[hdr.parent] else parent.number == 0
    ensures Cleared(w, start, parent.number, e, n) <==> Cleared(w, start, hdr.number, e, n) || n == hdr.number
  {
    StepDown(w, start, hdr);
  }

  ghost predicate VisitedAt(w: map<Hash, Header>, start: Header, cur: Header, e: nat, visited: set<nat>, n: nat)
    requires Linked(w)
  {
    n in visited <==> Cleared(w, start, cur.number, e, n)
  }

  /** A rewind in progress: `cur` is on the way down from `start`, and `visited` are the
      heights whose deletion is batched. */
  ghost predicate Rewinding(w: map<Hash, Header>, genesis: Header, start: Header, cur: Header, e: nat, visited: set<nat>) {
    && Linked(w) && Stored(w, start) && Stored(w, cur) && cur.number <= start.number < e
    && (OnLine(w, cur, start.hash) || cur == genesis)
    && (forall n: nat :: VisitedAt(w, start, cur, e, visited, n))
  }

  lemma {:induction false} RewindsLower(w: map<Hash, Header>, genesis: Header, start: Header, cur: Header, e: nat, visited: set<nat>)
    requires Based(w, genesis) && Rewinding(w, genesis, start, cur, e, visited)
    ensures cur == start || cur.number < start.number
  {
    assert OnlyGenesis(w, genesis, start.hash);
  }

  lemma {:induction false} RewindStep(w: map<Hash, Header>, genesis: Header, start: Header, hdr: Header, parent: Header, e: nat, visited: set<nat>)
    requires Based(w, genesis) && Rewinding(w, genesis, start, hdr, e, visited) && hdr.number > 0
    requires if hdr.parent in w then parent == w[hdr.parent] else parent == genesis
    ensures Rewinding(w, genesis, start, parent, e, visited + {hdr.number})
  {
    assert OnLine(w, hdr, start.hash);
    StepDown(w, start, hdr);
    forall n: nat ensures VisitedAt(w, start, parent, e, visited + {hdr.number}, n) {
      assert VisitedAt(w, start, hdr, e, visited, n);
      ClearedStep(w, start, hdr, parent, e, n);
    }
  }

  /** The first step also clears the occupied heights above `start`. */
  lemma {:induction false} FirstStep(w: map<Hash, Header>, genesis: Header, start: Header, e: nat, visited: set<nat>)
    requires Rewinding(w, genesis, start, start, start.number + 1, visited) && start.number < e
    ensures Rewinding(w, genesis, start, start, e, Heights(start.number + 1, e))
  {
  }

  // ---- The descent on this node ------------------------------------------------------------------

  lemma {:induction false} LandsAt(g: Ground, states: set<Hash>, h: Header, l: Landing)
    requires Linked(g.headers) && Based(g.headers, g.genesis)
    requires EndsAt(g.headers, SearchOf(g.scheme, states, h), RecoveryOf(g.scheme), g.genesis, h, g.root, l)
    requires l.header == g.genesis || Stored(g.headers, l.header)
    ensures l == LandFrom(g, states, h)
  {
    assert OnlyGenesis(g.headers, g.genesis, l.header.hash);
    var n := Highest(g.headers, SearchOf(g.scheme, states, h), h, g.root, h.number);
    if n.Some? {
      assert OnlyGenesis(g.headers, g.genesis, AncestorAt(g.headers, h.hash, n.value));
    }
  }

  lemma {:induction false} DescentOrdered(g: Ground, s: Stand)
    requires OnGround(g, s) && s.block.number <= s.header.number && s.snap.number <= s.header.number
    ensures var t := Descend(g, s);
            && t.header.number <= s.header.number && t.block.number <= s.header.number && t.snap.number <= s.header.number
            && (g.update ==> t.block.number <= t.header.number && t.snap.number <= t.header.number)
  {
    DescentEnds(g, s);
    if g.update {
      MarkersBelow(g, s);
    } else {
      HeaderAlone(g, s);
    }
  }

  /** The first header from `h` down at or below the height; genesis where the line ends before. */
  ghost function FirstBelow(w: map<Hash, Header>, genesis: Header, h: Header, height: nat): Header
    requires Linked(w) && Stored(w, h)
    decreases h.number
  {
    if h.number <= height then h
    else if h.parent in w then FirstBelow(w, genesis, w[h.parent], height)
    else genesis
  }

  /** A rewind of the header alone goes there. */
  lemma {:induction false} DescendsFirst(g: Ground, s: Stand)
    requires OnGround(g, s) && !g.update && s.time == 0
    ensures Descend(g, s).header == FirstBelow(g.headers, g.genesis, s.header, s.target)
    decreases s.header.number
  {
    if !Stops(s) {
      DescendsFirst(g, Lower(g, s));
    }
  }

  // ---- What a rewind removes ---------------------------------------------------------------------

  function Truncate(ancient: seq<Header>, head: Header): seq<Header> {
    if head.number + 1 < |ancient| then ancient[..head.number + 1] else ancient
  }

  ghost predicate HeaderWiped(a: Db, w: map<Hash, Header>, start: Header, head: Header, e: nat, b: Db, h: Hash)
    requires Linked(w)
  {
    && (h in b.headers <==> h in a.headers && !Cleared(w, start, head.number, e, a.headers[h].number))
    && (h in b.headers ==> b.headers[h] == a.headers[h])
  }

  ghost predicate NumberWiped(a: Db, w: map<Hash, Header>, start: Header, head: Header, e: nat, b: Db, n: nat)
    requires Linked(w)
  {
    && (n in b.canon <==> n in a.canon && !Cleared(w, start, head.number, e, n))
    && (n in b.canon ==> b.canon[n] == a.canon[n])
  }

  ghost predicate BodyWiped(a: Db, ancient: seq<Header>, start: Header, head: Header, e: nat, b: Db, h: Hash)
    requires Linked(All(a.headers, ancient))
  {
    && (h in b.bodies <==> h in a.bodies && !(h in a.headers && |ancient| <= a.headers[h].number
                                              && Cleared(All(a.headers, ancient), start, head.number, e, a.headers[h].number)))
    && (h in b.bodies ==> b.bodies[h] == a.bodies[h])
  }

  /** What a rewind from `start` to `head` removes: the headers and numbers at the cleared heights, the
      bodies of those that are not frozen, and the ancient items above the head. Nothing else. */
  ghost predicate Wiped(a: Db, ancient: seq<Header>, start: Header, head: Header, e: nat, b: Db, ancient': seq<Header>) {
    && Stores(a.headers, ancient)
    && ancient' == Truncate(ancient, head) && b.lookups == a.lookups
    && (forall h :: HeaderWiped(a, All(a.headers, ancient), start, head, e, b, h))
    && (forall n: nat :: NumberWiped(a, All(a.headers, ancient), start, head, e, b, n))
    && (forall h :: BodyWiped(a, ancient, start, head, e, b, h))
  }

  lemma {:induction false} WipedSame(a: Db, d: Db, ancient: seq<Header>, start: Header, head: Header, e: nat, b: Db, ancient': seq<Header>)
    requires SameData(a, d) && Wiped(d, ancient, start, head, e, b, ancient')
    ensures Wiped(a, ancient, start, head, e, b, ancient')
  {
    var w := All(d.headers, ancient);
    forall h ensures HeaderWiped(a, w, start, head, e, b, h) {
      assert HeaderWiped(d, w, start, head, e, b, h);
    }
    forall n: nat ensures NumberWiped(a, w, start, head, e, b, n) {
      assert NumberWiped(d, w, start, head, e, b, n);
    }
    forall h ensures BodyWiped(a, ancient, start, head, e, b, h) {
      assert BodyWiped(d, ancient, start, head, e, b, h);
    }
  }

  /** The header can still be read after a wipe from `start` down to `head`: it is not above the head, or
      it is a header of the key-value store at a height that the line of `start` skips. */
  ghost predicate Survives(d: Db, ancient: seq<Header>, start: Header, head: Header, h: Header)
    requires Linked(All(d.headers, ancient))
  {
    h.number <= head.number || (h.hash in d.headers && AncestorAt(All(d.headers, ancient), start.hash, h.number) == ZERO)
  }

  lemma {:induction false} WipeEffect(d: Db, batch: seq<Write>, ancient: seq<Header>, w: map<Hash, Header>, genesis: Header,
                                      start: Header, head: Header, e: nat, visited: set<nat>)
    requires Stores(d.headers, ancient) && w == All(d.headers, ancient)
    requires Rewinding(w, genesis, start, head, e, visited) && Deletes(batch, d.headers, w, visited, |ancient|)
    ensures Wiped(d, ancient, start, head, e, Apply(d, batch), Truncate(ancient, head))
    ensures var b := Apply(d, batch); b.headHeader == d.headHeader && b.headFast == d.headFast && b.headBlock == d.headBlock
  {
    DeletionEffect(d, batch, |batch|);
    BodiesLeft(d, batch, |batch|);
    assert batch[..|batch|] == batch;
    KeyValueReadable(d.headers, ancient);
    var b := Apply(d, batch);
    forall h ensures HeaderWiped(d, w, start, head, e, b, h) {
      assert HeaderDeleted(batch, d.headers, w, visited, |ancient|, h);
      if h in d.headers {
        assert VisitedAt(w, start, head, e, visited, d.headers[h].number);
        assert DelHeader(h) in batch <==> Cleared(w, start, head.number, e, d.headers[h].number);
      }
    }
    forall n: nat ensures NumberWiped(d, w, start, head, e, b, n) {
      assert NumberDeleted(batch, visited, n) && VisitedAt(w, start, head, e, visited, n);
    }
    forall h ensures BodyWiped(d, ancient, start, head, e, b, h) {
      assert HeaderDeleted(batch, d.headers, w, visited, |ancient|, h);
      FrozenContents(ancient, h);
      if h in w {
        assert VisitedAt(w, start, head, e, visited, w[h].number);
      }
    }
  }

  lemma {:induction false} FrozenPrefix(ancient: seq<Header>, k: nat, h: Hash)
    requires WellFrozen(ancient) && k <= |ancient|
    ensures h in Frozen(ancient[..k]) <==> h in Frozen(ancient) && Frozen(ancient)[h].number < k
    ensures h in Frozen(ancient[..k]) ==> Frozen(ancient[..k])[h] == Frozen(ancient)[h]
  {
    FrozenByHeight(ancient);
    FrozenFront(ancient, k);
    FrozenContents(ancient, h);
    FrozenContents(ancient[..k], h);
    if h in Frozen(ancient) && Frozen(ancient)[h].number < k {
      assert ancient[..k][Frozen(ancient)[h].number].hash == h;
    }
    if h in Frozen(ancient[..k]) {
      assert ancient[Frozen(ancient[..k])[h].number].hash == h;
    }
  }

  /** A header at or below the new head survives. */
  lemma {:induction false} WipeKeeps(a: Db, b: Db, ancient: seq<Header>, start: Header, head: Header, e: nat, h: Header)
    requires Wiped(a, ancient, start, head, e, b, Truncate(ancient, head))
    requires Stored(All(a.headers, ancient), h) && h.number <= head.number <= start.number
    ensures Stored(All(b.headers, Truncate(ancient, head)), h)
  {
    assert HeaderWiped(a, All(a.headers, ancient), start, head, e, b, h.hash);
    FrozenByHeight(ancient);
    FrozenContents(ancient, h.hash);
    if head.number + 1 < |ancient| {
      FrozenPrefix(ancient, head.number + 1, h.hash);
    }
  }

  /** What can be read after a rewind could be read before, and is still linked. */
  lemma {:induction false} WipeShrinks(a: Db, b: Db, ancient: seq<Header>, start: Header, head: Header, e: nat)
    requires Wiped(a, ancient, start, head, e, b, Truncate(ancient, head))
    ensures Stores(b.headers, Truncate(ancient, head))
    ensures forall x | x in All(b.headers, Truncate(ancient, head)) ::
              x in All(a.headers, ancient) && All(b.headers, Truncate(ancient, head))[x] == All(a.headers, ancient)[x]
  {
    var w, w' := All(a.headers, ancient), All(b.headers, Truncate(ancient, head));
    KeyValueReadable(a.headers, ancient);
    forall x | x in w' ensures x in w && w'[x] == w[x] {
      assert HeaderWiped(a, w, start, head, e, b, x);
      if head.number + 1 < |ancient| {
        FrozenPrefix(ancient, head.number + 1, x);
      }
    }
    var kept := Truncate(ancient, head);
    FrozenFront(ancient, |kept|);
    assert kept == ancient[..|kept|];
    forall i: nat ensures FrozenAgrees(b.headers, kept, i) {
      if i < |kept| {
        assert HeaderWiped(a, w, start, head, e, b, kept[i].hash) && FrozenAgrees(a.headers, ancient, i);
      }
    }
  }

  lemma {:induction false} WipeSound(a: Db, b: Db, ancient: seq<Header>, genesis: Header, start: Header, head: Header, e: nat, block: Header, snap: Header)
    requires Wiped(a, ancient, start, head, e, b, Truncate(ancient, head)) && head.number <= start.number
    requires SoundAt(a.headers, ancient, genesis, head, block, snap)
    requires Stored(All(b.headers, Truncate(ancient, head)), block) && Stored(All(b.headers, Truncate(ancient, head)), snap)
    ensures SoundAt(b.headers, Truncate(ancient, head), genesis, head, block, snap)
  {
    WipeShrinks(a, b, ancient, start, head, e);
    forall h ensures OnlyGenesis(All(b.headers, Truncate(ancient, head)), genesis, h) {
      assert OnlyGenesis(All(a.headers, ancient), genesis, h);
    }
    WipeKeeps(a, b, ancient, start, head, e, genesis);
    WipeKeeps(a, b, ancient, start, head, e, head);
  }

  /** A header up to the old head stays readable exactly when it survives. */
  lemma {:induction false} WipeLoses(a: Db, ancient: seq<Header>, start: Header, head: Header, e: nat, b: Db, h: Header)
    requires Wiped(a, ancient, start, head, e, b, Truncate(ancient, head)) && head.number <= start.number
    requires Stored(All(a.headers, ancient), h) && h.number <= start.number
    ensures Stored(All(b.headers, Truncate(ancient, head)), h) <==> Survives(a, ancient, start, head, h)
    ensures h.hash in All(b.headers, Truncate(ancient, head)) <==> Survives(a, ancient, start, head, h)
  {
    if h.number <= head.number {
      WipeKeeps(a, b, ancient, start, head, e, h);
    } else {
      assert HeaderWiped(a, All(a.headers, ancient), start, head, e, b, h.hash);
      KeyValueReadable(a.headers, ancient);
      FrozenContents(ancient, h.hash);
      WipeShrinks(a, b, ancient, start, head, e);
      KeyValueReadable(b.headers, Truncate(ancient, head));
      if head.number + 1 < |ancient| {
        FrozenPrefix(ancient, head.number + 1, h.hash);
      }
    }
  }

  lemma {:induction false} FlushResult(d: Db, batch: seq<Write>, ancient: seq<Header>, genesis: Header,
                                       start: Header, head: Header, e: nat, visited: set<nat>, block: Header, snap: Header)
    requires SoundAt(d.headers, ancient, genesis, head, block, snap)
    requires Marks(d, head, block, snap) && block.number <= start.number && snap.number <= start.number
    requires Rewinding(All(d.headers, ancient), genesis, start, head, e, visited)
    requires Deletes(batch, d.headers, All(d.headers, ancient), visited, |ancient|)
    ensures var b := Apply(d, batch);
            && Wiped(d, ancient, start, head, e, b, Truncate(ancient, head))
            && Marks(b, head, block, snap)
            && var kept := Survives(d, ancient, start, head, block) && Survives(d, ancient, start, head, snap);
            && (kept <==> SoundAt(b.headers, Truncate(ancient, head), genesis, head, block, snap))
            && (kept ==> CrashSafe(d, batch, ancient))
  {
    var w, b := All(d.headers, ancient), Apply(d, batch);
    WipeEffect(d, batch, ancient, w, genesis, start, head, e, visited);
    WipeLoses(d, ancient, start, head, e, b, block);
    WipeLoses(d, ancient, start, head, e, b, snap);
    if Survives(d, ancient, start, head, block) && Survives(d, ancient, start, head, snap) {
      assert VisitedAt(w, start, head, e, visited, head.number) && VisitedAt(w, start, head, e, visited, block.number)
             && VisitedAt(w, start, head, e, visited, snap.number);
      DeletionsSafe(d, batch, ancient, visited);
      WipeSound(d, b, ancient, genesis, start, head, e, block, snap);
    }
  }

  ghost predicate HasParent(w: map<Hash, Header>, h: Hash) {
    h in w ==> w[h].number == 0 || w[h].parent in w
  }

  /** Every stored header but genesis has its parent stored. */
  ghost predicate NoOrphans(w: map<Hash, Header>) {
    forall h :: HasParent(w, h)
  }

  ghost predicate NumberKnown(a: Db, start: Header, n: nat) {
    n in a.canon && n > start.number ==> HasHeight(a.headers, n)
  }

  /** The chain below `start` is complete, every stored block has its parent, the ancient store ends
      at or below `start`, and numbers above it belong to stored blocks. */
  ghost predicate Ungapped(a: Db, ancient: seq<Header>, start: Header) {
    && Linked(All(a.headers, ancient)) && AncestorAt(All(a.headers, ancient), start.hash, 0) != ZERO
    && NoOrphans(All(a.headers, ancient)) && |ancient| <= start.number + 1
    && (forall n: nat :: NumberKnown(a, start, n))
  }

  /** No header, number or ancient item lies above the height. */
  ghost predicate ClearAbove(b: Db, ancient: seq<Header>, top: nat) {
    && (forall h | h in b.headers :: b.headers[h].number <= top)
    && (forall n | n in b.canon :: n <= top)
    && |ancient| <= top + 1
  }

  /** Heights above the head are occupied without a gap. */
  lemma {:induction false} OccupiedBelow(headers: map<Hash, Header>, ancient: seq<Header>, start: nat, h: Hash, n: nat)
    requires Stores(headers, ancient) && NoOrphans(All(headers, ancient)) && |ancient| <= start + 1
    requires h in headers && start < n <= headers[h].number
    ensures HasHeight(headers, n)
    decreases headers[h].number
  {
    if n < headers[h].number {
      KeyValueReadable(headers, ancient);
      assert HasParent(All(headers, ancient), h);
      var p := headers[h].parent;
      FrozenContents(ancient, p);
      assert p in headers;
      OccupiedBelow(headers, ancient, start, p, n);
    }
  }

  lemma {:induction false} AboveIsCleared(a: Db, ancient: seq<Header>, start: Header, head: Header, e: nat, n: nat)
    requires Stores(a.headers, ancient) && Stored(All(a.headers, ancient), start) && Ungapped(a, ancient, start)
    requires e > start.number && !HasHeight(a.headers, e)
    ensures n > head.number && (n <= start.number || HasHeight(a.headers, n)) ==> Cleared(All(a.headers, ancient), start, head.number, e, n)
  {
    if head.number < n <= start.number {
      LineFilled(All(a.headers, ancient), start.hash, 0, n);
    } else if n > e && HasHeight(a.headers, n) {
      var h :| h in a.headers && a.headers[h].number == n;
      OccupiedBelow(a.headers, ancient, start.number, h, e);
    }
  }

  /** On an ungapped chain nothing stays above the new head, in either store. */
  lemma {:induction false} NothingLeftAbove(a: Db, ancient: seq<Header>, start: Header, head: Header, e: nat, b: Db)
    requires Wiped(a, ancient, start, head, e, b, Truncate(ancient, head)) && head.number < start.number
    requires Stored(All(a.headers, ancient), start) && Ungapped(a, ancient, start)
    requires e > start.number && !HasHeight(a.headers, e)
    ensures ClearAbove(b, Truncate(ancient, head), head.number)
  {
    var w := All(a.headers, ancient);
    forall h | h in b.headers ensures b.headers[h].number <= head.number {
      assert HeaderWiped(a, w, start, head, e, b, h);
      AboveIsCleared(a, ancient, start, head, e, a.headers[h].number);
    }
    forall n | n in b.canon ensures n <= head.number {
      assert NumberWiped(a, w, start, head, e, b, n) && NumberKnown(a, start, n);
      AboveIsCleared(a, ancient, start, head, e, n);
    }
  }

  // ---- The node ----------------------------------------------------------------------------------

  /** Batches the deletions of one step down from `hdr`; the first step also takes the
      occupied heights above. */
  method ClearHeight(headers: map<Hash, Header>, ghost w: map<Hash, Header>, ghost genesis: Header, ghost start: Header, hdr: Header, ghost parent: Header,
                     batch: seq<Write>, frozen: nat, origin: bool, ghost e: nat, ghost visited: set<nat>)
    returns (batch': seq<Write>, ghost e': nat, ghost visited': set<nat>)
    requires forall h | h in headers :: h in w && w[h] == headers[h]
    requires Based(w, genesis) && Rewinding(w, genesis, start, hdr, e, visited) && hdr.number > 0
    requires if hdr.parent in w then parent == w[hdr.parent] else parent == genesis
    requires Deletes(batch, headers, w, visited, frozen)
    requires origin <==> hdr == start
    requires if origin then visited == {} && e == start.number + 1 else RunsTo(headers, start.number, e)
    ensures Rewinding(w, genesis, start, parent, e', visited')
    ensures Deletes(batch', headers, w, visited', frozen)
    ensures RunsTo(headers, start.number, e')
  {
    e', visited' := e, visited;
    var top: nat := hdr.number + 1;
    if origin {
      top := RunAbove(headers, hdr.number);
      FirstStep(w, genesis, start, top, visited);
      e', visited' := top, Heights(start.number + 1, top);
    }
    var ws := DeleteRun(headers, w, hdr.number, top, hdr, frozen);
    RewindStep(w, genesis, start, hdr, parent, e', visited');
    DeletesConcat(batch, ws, headers, w, visited, Heights(hdr.number, top), frozen);
    assert visited + Heights(hdr.number, top) == visited' + {hdr.number};
    visited' := visited' + {hdr.number};
    batch' := batch + ws;
  }

  class RewindableChain {
    const genesis: Header
    const scheme: Scheme
    var db: Db
    var ancient: seq<Header>
    var states: set<Hash>
    var currentHeader: Header
    var currentBlock: Header
    var currentSnapBlock: Header
    var safe: Option<Header>
    var finalized: Option<Header>
    var rootNumber: nat
    ghost var log: seq<Write>  // the durable writes, in order

    /** The markers held in memory name readable headers; height 0 is genesis. */
    ghost predicate Sound()
      reads this
    {
      SoundAt(db.headers, ancient, genesis, currentHeader, currentBlock, currentSnapBlock)
    }

    /** The durable markers are those held in memory. */
    ghost predicate Valid()
      reads this
    {
      && Sound()
      && Marks(db, currentHeader, currentBlock, currentSnapBlock)
    }

    /** A node that finds these stores, states and markers. */
    constructor (genesis: Header, scheme: Scheme, db: Db, ancient: seq<Header>, states: set<Hash>, header: Header, block: Header, snap: Header)
      requires SoundAt(db.headers, ancient, genesis, header, block, snap) && Marks(db, header, block, snap)
      ensures Valid() && this.genesis == genesis && this.scheme == scheme && this.db == db && this.ancient == ancient && this.states == states
      ensures currentHeader == header && currentBlock == block && currentSnapBlock == snap && safe == finalized == None && log == []
    {
      this.genesis, this.scheme, this.db, this.ancient, this.states := genesis, scheme, db, ancient, states;
      currentHeader, currentBlock, currentSnapBlock := header, block, snap;
      safe, finalized, rootNumber, log := None, None, 0, [];
    }

    ghost function Readable(): map<Hash, Header>
      reads this
    {
      All(db.headers, ancient)
    }

    /** Neither block marker is above the header marker. */
    ghost predicate Ordered()
      reads this
    {
      currentBlock.number <= currentHeader.number && currentSnapBlock.number <= currentHeader.number
    }

    /** What a rewind of this node reads. */
    ghost function On(root: Hash, update: bool): Ground
      reads this
    {
      Ground(Readable(), db.bodies, |ancient|, genesis, scheme, root, update)
    }

    /** Where this node stands in a rewind with the given target. */
    ghost function At(target: nat, time: nat, forced: bool): Stand
      reads this
    {
      Stand(currentHeader, currentBlock, currentSnapBlock, states, rootNumber, target, time, forced)
    }

    /** The search for a block with state, by either scheme. */
    method RewindHead(header: Header, root: Hash, ghost g: Ground) returns (r: Rewound)
      requires Sound() && Stored(Readable(), header) && g == On(root, true)
      modifies this`states
      ensures r.Crash? <==> FallsFrom(g, old(states), header)
      ensures r.Crash? ==> states == old(states)
      ensures r.Rewound? ==> Stored(g.headers, r.header) && Landing(r.header, states, r.rootNumber) == LandFrom(g, old(states), header)
    {
      var headers := All(db.headers, ancient);
      match scheme
      case PathScheme(pivot, recoverable, recover) =>
        var h, n, available := RewindPathHead(headers, states, recoverable, recover, genesis, pivot, header, root);
        LandsAt(g, states, header, Landing(h, available, n));
        states := available;
        r := Rewound(h, n);
      case HashScheme(pivot) =>
        r := RewindHashHead(headers, states, genesis, pivot, header, root, RecoveryOf(scheme));
        if r.Rewound? {
          LandsAt(g, states, header, Landing(r.header, states, r.rootNumber));
        }
    }

    /** Rewinds the block marker to a block with state at or below `header`, unless it is below already. */
    method MoveBlock(header: Header, root: Hash, ghost g: Ground, ghost s: Stand) returns (batch: seq<Write>, crashed: bool)
      requires Valid() && Stored(Readable(), header) && g == On(root, true) && s == At(s.target, s.time, s.forced)
      modifies this`states, this`currentBlock, this`rootNumber
      ensures Sound() && Moves(batch, g.headers)
      ensures crashed <==> Searches(g, s, header) && FallsFrom(g, s.states, header)
      ensures crashed ==> s == At(s.target, s.time, s.forced)
      ensures !crashed ==> Landing(currentBlock, states, rootNumber) == BlockAt(g, s, header)
      ensures !crashed ==> Marks(Apply(db, batch), currentHeader, currentBlock, currentSnapBlock)
    {
      batch, crashed := [], false;
      if header.number <= currentBlock.number {
        var r := RewindHead(header, root, g);
        if r.Crash? {
          crashed := true;
          return;
        }
        batch := [PutHeadBlock(r.header.hash)];
        ApplyOne(db, PutHeadBlock(r.header.hash));
        currentBlock, rootNumber := r.header, r.rootNumber;
      }
    }

    /** Moves the snap marker to or below `header`, in addition to the moves batched already. */
    method MoveSnap(header: Header, batch: seq<Write>) returns (batch': seq<Write>)
      requires Sound() && Stored(Readable(), header)
      requires Moves(batch, Readable()) && Marks(Apply(db, batch), currentHeader, currentBlock, currentSnapBlock)
      modifies this`currentSnapBlock
      ensures Sound() && Moves(batch', Readable()) && Marks(Apply(db, batch'), currentHeader, currentBlock, currentSnapBlock)
      ensures currentSnapBlock == SnapBelow(db.bodies, |ancient|, genesis, header, old(currentSnapBlock))
    {
      batch' := batch;
      if header.number < currentSnapBlock.number {
        var snap := if header.hash in db.bodies || header.number < |ancient| then header else genesis;
        ApplySnoc(db, batch, PutHeadFast(snap.hash));
        batch' := batch + [PutHeadFast(snap.hash)];
        currentSnapBlock := snap;
      }
    }

    /** Moves the block and snap markers to or below `header`; yields the new block head and
        whether the chain must be wiped down to it. */
    method UpdateHeads(header: Header, root: Hash, ghost g: Ground, ghost s: Stand)
      returns (batch: seq<Write>, newHead: Header, wipe: bool, crashed: bool)
      requires Valid() && Stored(Readable(), header) && g == On(root, true) && s == At(s.target, s.time, s.forced)
      modifies this`states, this`currentBlock, this`currentSnapBlock, this`rootNumber
      ensures Sound() && Moves(batch, g.headers)
      ensures crashed <==> Searches(g, s, header) && FallsFrom(g, s.states, header)
      ensures crashed ==> s == At(s.target, s.time, s.forced)
      ensures !crashed ==>
                && newHead == currentBlock && Landing(currentBlock, states, rootNumber) == BlockAt(g, s, header)
                && currentSnapBlock == SnapBelow(g.bodies, g.frozen, genesis, header, s.snap)
                && wipe == Forces(scheme, currentBlock, |ancient|)
                && Marks(Apply(db, batch), currentHeader, currentBlock, currentSnapBlock)
    {
      batch, crashed := MoveBlock(header, root, g, s);
      newHead, wipe := currentBlock, false;
      if crashed {
        return;
      }
      batch := MoveSnap(header, batch);
      if currentBlock.number + 1 < |ancient| {
        wipe := scheme.pivot.None? || currentBlock.number >= scheme.pivot.value;
      }
    }

    /** Issues a batch of durable writes. */
    method WriteDurably(batch: seq<Write>)
      modifies this`db, this`log
      ensures db == Apply(old(db), batch) && log == old(log) + batch
    {
      db := Apply(db, batch);
      log := log + batch;
    }

    /** Moves the header marker, durably together with the batched moves of the others. */
    method MoveHeader(header: Header, batch: seq<Write>) returns (ghost ws: seq<Write>)
      requires Sound() && Stored(Readable(), header) && MarkersStored(db, ancient)
      requires Moves(batch, Readable()) && Marks(Apply(db, batch), currentHeader, currentBlock, currentSnapBlock)
      modifies this`db, this`log, this`currentHeader
      ensures SameData(old(db), db) && log == old(log) + ws && Issued(old(db), ws, db, ancient)
      ensures Valid() && currentHeader == header
    {
      ApplySnoc(db, batch, PutHeadHeader(header.hash));
      ws := batch + [PutHeadHeader(header.hash)];
      MovesSafe(db, ws, ancient);
      WriteDurably(batch + [PutHeadHeader(header.hash)]);
      currentHeader := header;
    }

    /** One step down: every marker is moved to the parent or below before anything is deleted. */
    method StepDownTo(parent: Header, root: Hash, target: nat, time: nat, forced: bool, update: bool, ghost g: Ground, ghost s: Stand)
      returns (target': nat, time': nat, forced': bool, crashed: bool, ghost ws: seq<Write>)
      requires Valid() && g == On(root, update) && s == At(target, time, forced)
      requires Stored(g.headers, parent) && parent == ParentOf(g, s.header)
      modifies this`db, this`log, this`states, this`currentHeader, this`currentBlock, this`currentSnapBlock, this`rootNumber
      ensures SameData(old(db), db) && log == old(log) + ws && Issued(old(db), ws, db, ancient) && Valid()
      ensures crashed <==> Falls(g, s)
      ensures At(target', time', forced') == if crashed then s else Lower(g, s)
    {
      target', time', forced', crashed, ws := target, time, forced, false, [];
      var batch: seq<Write> := [];
      if update {
        var newHead, wipe;
        batch, newHead, wipe, crashed := UpdateHeads(parent, root, g, s);
        if crashed {
          MovesSafe(db, [], ancient);
          return;
        }
        if wipe && ((time > 0 && newHead.time < time) || (time == 0 && newHead.number < target)) {
          target', time', forced' := newHead.number, 0, true;
        }
      }
      ws := MoveHeader(parent, batch);
    }

    /** A rewind from `start` in progress, with the deletions batched so far. */
    ghost predicate Progress(w: map<Hash, Header>, start: Header, batch: seq<Write>, e: nat, visited: set<nat>, origin: bool)
      reads this
    {
      && Valid() && Readable() == w
      && Rewinding(w, genesis, start, currentHeader, e, visited)
      && Deletes(batch, db.headers, w, visited, |ancient|)
      && (origin <==> currentHeader == start)
      && (if origin then visited == {} && e == start.number + 1 else RunsTo(db.headers, start.number, e))
    }

    /** The parent of a header, or genesis when it is missing. */
    method ParentOrGenesis(hdr: Header) returns (parent: Header)
      requires Sound()
      ensures Stored(Readable(), parent)
      ensures if hdr.number > 0 && hdr.parent in Readable() && Readable()[hdr.parent].number == hdr.number - 1
              then parent == Readable()[hdr.parent] else parent == genesis
    {
      GetHeaderReads(db.headers, ancient, hdr.parent, hdr.number - 1);
      var found := GetHeader(db.headers, ancient, hdr.parent, hdr.number - 1);
      parent := if found.Some? then found.value else genesis;
    }

    /** One round of the rewind: markers down, deletions batched. */
    method OneStep(root: Hash, target: nat, time: nat, forced: bool, update: bool, batch: seq<Write>, origin: bool,
                   ghost g: Ground, ghost s: Stand, ghost start: Header, ghost e: nat, ghost visited: set<nat>)
      returns (target': nat, time': nat, forced': bool, crashed: bool, batch': seq<Write>,
               ghost e': nat, ghost visited': set<nat>, ghost step: seq<Write>)
      requires Progress(g.headers, start, batch, e, visited, origin) && currentHeader.number > 0
      requires g == On(root, update) && s == At(target, time, forced)
      modifies this`db, this`log, this`states, this`currentHeader, this`currentBlock, this`currentSnapBlock, this`rootNumber
      ensures log == old(log) + step && Issued(old(db), step, db, ancient) && SameData(old(db), db)
      ensures Progress(g.headers, start, batch', e', visited', origin && crashed)
      ensures crashed <==> Falls(g, s)
      ensures At(target', time', forced') == if crashed then s else Lower(g, s)
    {
      var hdr := currentHeader;
      var parent := ParentOrGenesis(hdr);
      target', time', forced', crashed, step := StepDownTo(parent, root, target, time, forced, update, g, s);
      batch', e', visited' := batch, e, visited;
      if crashed {
        return;
      }
      KeyValueReadable(db.headers, ancient);
      RewindStep(g.headers, genesis, start, hdr, parent, e, visited);
      batch', e', visited' := ClearHeight(db.headers, g.headers, genesis, start, hdr, parent, batch, |ancient|, origin, e, visited);
    }

    /** The durable writes since `d` and the log `l` are `ws`; they moved markers only, safely at each. */
    ghost predicate Logged(d: Db, l: seq<Write>, ws: seq<Write>)
      reads this
    {
      SameData(d, db) && log == l + ws && Issued(d, ws, db, ancient)
    }

    /** One round, added to the writes of the rounds before. */
    method Round(root: Hash, target: nat, time: nat, forced: bool, update: bool, batch: seq<Write>, origin: bool,
                 ghost g: Ground, ghost s: Stand, ghost e: nat, ghost visited: set<nat>, ghost d: Db, ghost l: seq<Write>, ghost ws: seq<Write>)
      returns (target': nat, time': nat, forced': bool, crashed: bool, batch': seq<Write>,
               ghost e': nat, ghost visited': set<nat>, ghost ws': seq<Write>)
      requires Progress(g.headers, s.header, batch, e, visited, origin) && !Done(currentHeader, target, time) && Logged(d, l, ws)
      requires g == On(root, update) && SameWay(g, s, At(target, time, forced))
      modifies this`db, this`log, this`states, this`currentHeader, this`currentBlock, this`currentSnapBlock, this`rootNumber
      ensures Logged(d, l, ws') && Progress(g.headers, s.header, batch', e', visited', origin && crashed)
      ensures crashed ==> Crashes(g, s) && Descend(g, s) == At(target', time', forced')
      ensures !crashed ==> SameWay(g, s, At(target', time', forced')) && currentHeader.number < old(currentHeader).number
    {
      ghost var before, step, grown := db, [], log;
      ghost var cur := At(target, time, forced);
      NotYetThere(g, s, cur);
      target', time', forced', crashed, batch', e', visited', step :=
        OneStep(root, target, time, forced, update, batch, origin, g, cur, s.header, e, visited);
      OneMoreIssued(d, ws, before, step, db, ancient, l, grown, log);
      ws' := ws + step;
    }

    /** Rewinds the header chain to height `headBlock`, or to time `headTime` if that is set.
        `update` tells whether the block markers are rewound along. */
    method RewindHeaders(headBlock: nat, headTime: nat, root: Hash, update: bool, ghost g: Ground, ghost s: Stand)
      returns (batch: seq<Write>, crashed: bool, forced: bool, ghost e: nat, ghost visited: set<nat>, ghost ws: seq<Write>)
      requires Valid() && (headTime > 0 ==> genesis.time <= headTime)
      requires g == On(root, update) && s == At(headBlock, headTime, false)
      modifies this`db, this`log, this`states, this`currentHeader, this`currentBlock, this`currentSnapBlock, this`rootNumber
      ensures Logged(old(db), old(log), ws)
      ensures Progress(g.headers, s.header, batch, e, visited, currentHeader == s.header)
      ensures crashed <==> Crashes(g, s)
      ensures var t := Descend(g, s); At(t.target, t.time, forced) == t
    {
      var target: nat, time: nat, origin := headBlock, headTime, true;
      batch, crashed, forced, e, visited, ws := [], false, false, s.header.number + 1, {}, [];
      while !(if time > 0 then currentHeader.time <= time else currentHeader.number <= target)
        invariant Logged(old(db), old(log), ws) && Progress(g.headers, s.header, batch, e, visited, origin)
        invariant SameWay(g, s, At(target, time, forced))
        decreases currentHeader.number
      {
        target, time, forced, crashed, batch, e, visited, ws :=
          Round(root, target, time, forced, update, batch, origin, g, s, e, visited, old(db), old(log), ws);
        if crashed {
          return;
        }
        origin := false;
      }
      WayEnds(g, s, At(target, time, forced));
    }

    /** Where a rewind with the given target starts from. */
    ghost function Start(headBlock: nat, headTime: nat, update: bool): Stand
      reads this
    {
      At(headBlock, headTime, false).(rootNumber := if update then 0 else rootNumber)
    }

    /** The block markers outlast a wipe down to the header marker. */
    ghost predicate Outlast(d: Db, a: seq<Header>, start: Header)
      requires Stores(d.headers, a)
      reads this
    {
      Survives(d, a, start, currentHeader, currentBlock) && Survives(d, a, start, currentHeader, currentSnapBlock)
    }

    /** Cuts the ancient store above the head. */
    method Cut()
      modifies this`ancient
      ensures ancient == Truncate(old(ancient), currentHeader)
    {
      if currentHeader.number + 1 < |ancient| {
        ancient := ancient[..currentHeader.number + 1];
      }
    }

    /** Writes the batched deletions and cuts the ancient store. */
    method Flush(batch: seq<Write>, ghost start: Header, ghost e: nat, ghost visited: set<nat>)
      requires Progress(Readable(), start, batch, e, visited, currentHeader == start)
      requires currentBlock.number <= start.number && currentSnapBlock.number <= start.number
      modifies this`db, this`log, this`ancient
      ensures log == old(log) + batch
      ensures Wiped(old(db), old(ancient), start, currentHeader, e, db, ancient)
      ensures Valid() <==> Outlast(old(db), old(ancient), start)
      ensures Valid() ==> CrashSafe(old(db), batch, old(ancient))
    {
      FlushResult(db, batch, ancient, genesis, start, currentHeader, e, visited, currentBlock, currentSnapBlock);
      WriteDurably(batch);
      Cut();
    }

    /** Flushes at the end of a rewind that took `d` to the present database by the writes `step`. */
    method FlushAfter(batch: seq<Write>, ghost d: Db, ghost step: seq<Write>, ghost start: Header, ghost e: nat, ghost visited: set<nat>)
      requires Progress(Readable(), start, batch, e, visited, currentHeader == start)
      requires currentBlock.number <= start.number && currentSnapBlock.number <= start.number
      requires SameData(d, db) && Issued(d, step, db, ancient)
      modifies this`db, this`log, this`ancient
      ensures log == old(log) + batch
      ensures Wiped(d, old(ancient), start, currentHeader, e, db, ancient)
      ensures Valid() <==> Outlast(d, old(ancient), start)
      ensures Valid() ==> CrashSafe(d, step + batch, old(ancient))
    {
      Flush(batch, start, e, visited);
      WipedSame(d, old(db), old(ancient), start, currentHeader, e, db, ancient);
      if Valid() {
        CrashSafeConcat(d, step, batch, old(ancient));
      }
    }

    /** Rewinds the chain: first the markers, then everything above in the key-value store, last the
        ancient store. Where it ends, whether it is forced below its target and whether it crashes is
        the descent worked out from the state before. */
    method SetHead(headBlock: nat, headTime: nat, root: Hash, update: bool)
      returns (crashed: bool, forced: bool, ghost e: nat, ghost ws: seq<Write>)
      requires Valid() && Ordered() && (headTime > 0 ==> genesis.time <= headTime)
      modifies this`db, this`log, this`ancient, this`states, this`currentHeader, this`currentBlock, this`currentSnapBlock, this`rootNumber
      ensures log == old(log) + ws
      ensures crashed <==> Crashes(old(On(root, update)), old(Start(headBlock, headTime, update)))
      ensures var t := Descend(old(On(root, update)), old(Start(headBlock, headTime, update)));
              At(t.target, t.time, forced) == t && t.header.number <= old(currentHeader).number
      ensures crashed ==> ancient == old(ancient) && CrashSafe(old(db), ws, old(ancient))
      ensures !crashed ==>
                && Wiped(old(db), old(ancient), old(currentHeader), currentHeader, e, db, ancient)
                && e > old(currentHeader).number && (currentHeader != old(currentHeader) ==> RunsTo(old(db).headers, old(currentHeader).number, e))
      ensures !crashed ==>
                (Valid() <==> Survives(old(db), old(ancient), old(currentHeader), currentHeader, currentBlock)
                              && Survives(old(db), old(ancient), old(currentHeader), currentHeader, currentSnapBlock))
      ensures !crashed && Valid() ==> CrashSafe(old(db), ws, old(ancient))
      ensures update ==> Ordered()
    {
      ghost var visited, step;
      var batch;
      ghost var g, s := On(root, update), Start(headBlock, headTime, update);
      if update {
        rootNumber := 0;
      }
      batch, crashed, forced, e, visited, step := RewindHeaders(headBlock, headTime, root, update, g, s);
      DescentOrdered(g, s);
      ws := step;
      if crashed {
        return;
      }
      RewindsLower(g.headers, genesis, s.header, currentHeader, e, visited);
      FlushAfter(batch, old(db), step, s.header, e, visited);
      ConcatAssociative(old(log), step, batch);
      ws := step + batch;
    }

    /** The block that a repair ends at. */
    ghost function RepairTarget(root: Hash): Header
      requires Linked(Readable())
      reads this
    {
      LandFrom(On(root, true), states, currentBlock).header
    }

    /** The first half of a repair: the markers alone. */
    method RepairMarkers(root: Hash) returns (target: Header, wipe: bool, crashed: bool)
      requires Valid() && Ordered()
      modifies this`db, this`log, this`states, this`currentBlock, this`currentSnapBlock, this`rootNumber
      ensures crashed <==> FallsFrom(old(On(root, true)), old(states), old(currentBlock))
      ensures crashed ==> !wipe && currentBlock == old(currentBlock) && currentSnapBlock == old(currentSnapBlock)
      ensures Valid() && Ordered() && SameData(old(db), db)
      ensures !crashed ==> target == currentBlock == old(RepairTarget(root)) && wipe == Forces(scheme, currentBlock, |ancient|)
      ensures !crashed ==> currentSnapBlock == SnapBelow(old(db).bodies, |ancient|, genesis, old(currentBlock), old(currentSnapBlock))
    {
      var batch;
      ghost var g, s := On(root, true), At(0, 0, false);
      batch, target, wipe, crashed := UpdateHeads(currentBlock, root, g, s);
      if crashed {
        wipe := false;
        return;
      }
      LandsBelow(g, s.states, s.block);
      MovesSafe(db, batch, ancient);
      WriteDurably(batch);
    }

    /** Looks for a block with state from the current one down. When the ancient store reaches
        above it, the header chain is wiped down to it as well, with the snap marker left as is; the
        markers stay sound if and only if the blocks they will name outlast the wipe. */
    method Repair(root: Hash) returns (crashed: bool, wiped: bool)
      requires Valid() && Ordered()
      modifies this`db, this`log, this`ancient, this`states, this`currentHeader, this`currentBlock, this`currentSnapBlock, this`rootNumber
      ensures crashed <==> FallsFrom(old(On(root, true)), old(states), old(currentBlock))
      ensures crashed ==> !wiped && Valid() && currentBlock == old(currentBlock) && currentHeader == old(currentHeader)
      ensures !crashed ==> var target := old(RepairTarget(root));
                           && currentBlock == target && wiped == Forces(scheme, target, |old(ancient)|)
                           && currentHeader == (if wiped then FirstBelow(old(Readable()), genesis, old(currentHeader), target.number) else old(currentHeader))
      ensures !crashed ==>
                var target, snap := old(RepairTarget(root)), SnapBelow(old(db).bodies, |old(ancient)|, genesis, old(currentBlock), old(currentSnapBlock));
                var head := FirstBelow(old(Readable()), genesis, old(currentHeader), target.number);
                var outlast := Survives(old(db), old(ancient), old(currentHeader), head, target)
                               && Survives(old(db), old(ancient), old(currentHeader), head, snap);
                Valid() <==> !wiped || outlast
    {
      var target;
      ghost var g, start := On(root, false), currentHeader;
      target, wiped, crashed := RepairMarkers(root);
      if wiped {
        ghost var e, step;
        var forced;
        ghost var s := Start(target.number, 0, false);
        HeaderAlone(g, s);
        DescendsFirst(g, s);
        crashed, forced, e, step := SetHead(target.number, 0, root, false);
      }
    }

    /** Drops the safe and finalized markers that are above the block head. */
    method DropMarkers()
      modifies this`safe, this`finalized
      ensures safe == if old(safe).Some? && old(safe).value.number <= currentBlock.number then old(safe) else None
      ensures finalized == if old(finalized).Some? && old(finalized).value.number <= currentBlock.number then old(finalized) else None
    {
      if safe.Some? && currentBlock.number < safe.value.number {
        safe := None;
      }
      if finalized.Some? && currentBlock.number < finalized.value.number {
        finalized := None;
      }
    }

    /** Rewinds the whole chain below `head` (or to `time`) and past the state root `root`, and
        drops the safe and finalized markers that it passes. */
    method SetHeadBeyondRoot(head: nat, time: nat, root: Hash) returns (crashed: bool, forced: bool, ghost e: nat, ghost ws: seq<Write>)
      requires Valid() && Ordered() && (time > 0 ==> genesis.time <= time)
      modifies this`db, this`log, this`ancient, this`states, this`currentHeader, this`currentBlock, this`currentSnapBlock, this`rootNumber,
               this`safe, this`finalized
      ensures log == old(log) + ws && CrashSafe(old(db), ws, old(ancient))
      ensures crashed <==> Crashes(old(On(root, true)), old(Start(head, time, true)))
      ensures var t := Descend(old(On(root, true)), old(Start(head, time, true)));
              && At(t.target, t.time, forced) == t
              && (!crashed ==> Done(currentHeader, t.target, t.time) && NotTooFar(old(Readable()), old(currentHeader), currentHeader, t.target, t.time))
      ensures root == ZERO || currentHeader == old(currentHeader) ==> rootNumber == 0
      ensures !crashed && time == 0 ==> currentHeader.number <= head
      ensures !crashed && time > 0 && !forced ==> currentHeader.time <= time
      ensures !crashed && !forced ==> LaterThan(old(On(root, true)), old(Start(head, time, true)), currentHeader)
      ensures Ordered() && (!crashed ==> Valid())
      ensures !crashed ==> Wiped(old(db), old(ancient), old(currentHeader), currentHeader, e, db, ancient)
      ensures !crashed ==> e > old(currentHeader).number
                           && (currentHeader != old(currentHeader) ==> RunsTo(old(db).headers, old(currentHeader).number, e))
      ensures !crashed && currentHeader != old(currentHeader) && Ungapped(old(db), old(ancient), old(currentHeader)) ==>
                ClearAbove(db, ancient, currentHeader.number)
      ensures safe == if crashed || (old(safe).Some? && old(safe).value.number <= currentBlock.number) then old(safe) else None
      ensures finalized == if crashed || (old(finalized).Some? && old(finalized).value.number <= currentBlock.number) then old(finalized) else None
    {
      ghost var g, s := On(root, true), Start(head, time, true);
      crashed, forced, e, ws := SetHead(head, time, root, true);
      DescentMeans(g, s);
      if crashed {
        return;
      }
      if currentHeader != old(currentHeader) && Ungapped(old(db), old(ancient), old(currentHeader)) {
        NothingLeftAbove(old(db), old(ancient), old(currentHeader), currentHeader, e, db);
      }
      DropMarkers();
    }
  }

  /** On the line of the old head surviving is not being above the new one. */
  lemma {:induction false} SurvivesOnLine(d: Db, ancient: seq<Header>, start: Header, head: Header, h: Header)
    requires Linked(All(d.headers, ancient)) && OnLine(All(d.headers, ancient), h, start.hash)
    ensures Survives(d, ancient, start, head, h) <==> h.number <= head.number
  {
  }

  // ---- A repair that loses the snap marker ----------------------------------------------

  /** Block `n` of a small chain; its hash is 10 + n and its root 20 + n. */
  function SmallBlock(n: nat): Header {
    Header(Hash(10 + n), if n == 0 then ZERO else Hash(9 + n), n, n, Hash(20 + n))
  }

  /** Heights 0 to 2 are frozen, height 3 is not, and every marker stands at height 3. */
  function SmallDb(): Db {
    Db(map[Hash(13) := SmallBlock(3)], map[Hash(13) := []], map[3 := Hash(13)], map[], Hash(13), Hash(13), Hash(13))
  }

  function SmallAncient(): seq<Header> {
    [SmallBlock(0), SmallBlock(1), SmallBlock(2)]
  }

  lemma {:induction false} SmallReadable()
    ensures All(SmallDb().headers, SmallAncient())
            == map[Hash(10) := SmallBlock(0), Hash(11) := SmallBlock(1), Hash(12) := SmallBlock(2), Hash(13) := SmallBlock(3)]
  {
    var a := SmallAncient();
    assert a[..2] == [a[0], a[1]] && a[..2][..1] == [a[0]] && a[..2][..1][..0] == [];
    assert Frozen(a[..2][..1]) == map[Hash(10) := SmallBlock(0)];
    assert Frozen(a[..2]) == map[Hash(10) := SmallBlock(0), Hash(11) := SmallBlock(1)];
    assert Frozen(a) == map[Hash(10) := SmallBlock(0), Hash(11) := SmallBlock(1), Hash(12) := SmallBlock(2)];
  }

  lemma {:induction false} SmallSound()
    ensures SoundAt(SmallDb().headers, SmallAncient(), SmallBlock(0), SmallBlock(3), SmallBlock(3), SmallBlock(3))
    ensures Marks(SmallDb(), SmallBlock(3), SmallBlock(3), SmallBlock(3))
  {
    SmallReadable();
  }

  lemma {:induction false} SmallLine(n: nat)
    requires Linked(All(SmallDb().headers, SmallAncient()))
    ensures AncestorAt(All(SmallDb().headers, SmallAncient()), Hash(13), n) == if n <= 3 then Hash(10 + n) else ZERO
  {
    SmallReadable();
  }

  /** The snap marker stands at the old head, only the state of height 1 is there, and there was no
      snap sync: the repair ends at height 1, the ancient store reaches above it, and the wipe takes
      the block that the snap marker names. */
  lemma {:induction false} RepairLosesSnap()
    ensures var g := Ground(All(SmallDb().headers, SmallAncient()), SmallDb().bodies, 3, SmallBlock(0), HashScheme(None), ZERO, true);
            var head, states := SmallBlock(3), {SmallBlock(1).root};
            && SoundAt(SmallDb().headers, SmallAncient(), SmallBlock(0), head, head, head) && Marks(SmallDb(), head, head, head)
            && !FallsFrom(g, states, head) && LandFrom(g, states, head).header == SmallBlock(1)
            && Forces(g.scheme, SmallBlock(1), 3)
            && FirstBelow(g.headers, SmallBlock(0), head, 1).number == 1
            && !Survives(SmallDb(), SmallAncient(), head, FirstBelow(g.headers, SmallBlock(0), head, 1),
                         SnapBelow(SmallDb().bodies, 3, SmallBlock(0), head, head))
  {
    var w := All(SmallDb().headers, SmallAncient());
    SmallReadable();
    SmallSound();
    var s := SearchOf(HashScheme(None), {SmallBlock(1).root}, SmallBlock(3));
    forall n: nat ensures Candidate(w, s, SmallBlock(3), ZERO, n) <==> n == 1 {
      SmallLine(n);
    }
    SmallLine(1);
    SmallLine(3);
    HighestIs(w, s, SmallBlock(3), ZERO, 1);
    assert FirstBelow(w, SmallBlock(0), SmallBlock(2), 1) == FirstBelow(w, SmallBlock(0), SmallBlock(1), 1);
  }

  /** Repairing that chain leaves it unsound. */
  method RepairSmallChain() returns (crashed: bool, wiped: bool, c: RewindableChain)
    ensures !crashed && wiped && c.currentBlock == SmallBlock(1) && !c.Valid()
  {
    RepairLosesSnap();
    c := new RewindableChain(SmallBlock(0), HashScheme(None), SmallDb(), SmallAncient(), {SmallBlock(1).root},
                             SmallBlock(3), SmallBlock(3), SmallBlock(3));
    crashed, wiped := c.Repair(ZERO);
  }
}
