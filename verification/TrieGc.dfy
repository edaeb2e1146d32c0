/** Which state tries a full node keeps in memory: references, commits and releases. */
module TrieGcs {
  import opened Common

  const TRIES_IN_MEMORY: nat := 128

  datatype Root = Root(id: int)

  /** A referenced state root and the height of its block. */
  datatype Item = Item(root: Root, number: nat)

  /** Calls into the trie database. */
  datatype Call = Reference(root: Root) | Commit(root: Root) | Dereference(root: Root)

  // ---- Counting references -------------------------------------------------------------------

  /** How often a root is queued. */
  ghost function Queued(queue: seq<Item>, r: Root): nat {
    if queue == [] then 0 else Queued(queue[..|queue| - 1], r) + if queue[|queue| - 1].root == r then 1 else 0
  }

  /** How often something occurs. */
  ghost function Times<T>(s: seq<T>, x: T): nat {
    if s == [] then 0 else Times(s[..|s| - 1], x) + if s[|s| - 1] == x then 1 else 0
  }

  function Delete(queue: seq<Item>, i: nat): seq<Item>
    requires i < |queue|
  {
    queue[..i] + queue[i + 1..]
  }

  lemma {:induction false} TimesConcat<T>(q: seq<T>, p: seq<T>, x: T)
    ensures Times(q + p, x) == Times(q, x) + Times(p, x)
  {
    if p == [] {
      assert q + p == q;
    } else {
      TimesConcat(q, p[..|p| - 1], x);
      assert (q + p)[..|q + p| - 1] == q + p[..|p| - 1];
    }
  }

  lemma {:induction false} TimesOne<T>(x: T, y: T)
    ensures Times([x], y) == if x == y then 1 else 0
  {
    assert [x][..0] == [];
  }

  lemma {:induction false} TimesDelete(queue: seq<Item>, i: nat, x: Item)
    requires i < |queue|
    ensures Times(Delete(queue, i), x) + (if queue[i] == x then 1 else 0) == Times(queue, x)
  {
    var rest := queue[i + 1..];
    assert queue == queue[..i] + ([queue[i]] + rest);
    TimesConcat(queue[..i], [queue[i]] + rest, x);
    TimesConcat([queue[i]], rest, x);
    TimesOne(queue[i], x);
    TimesConcat(queue[..i], rest, x);
  }

  /** What occurs has an index. */
  lemma {:induction false} Occurs<T>(s: seq<T>, x: T) returns (i: nat)
    requires Times(s, x) > 0
    ensures i < |s| && s[i] == x
  {
    if s[|s| - 1] == x {
      i := |s| - 1;
    } else {
      i := Occurs(s[..|s| - 1], x);
    }
  }

  lemma {:induction false} QueuedConcat(q: seq<Item>, p: seq<Item>, r: Root)
    ensures Queued(q + p, r) == Queued(q, r) + Queued(p, r)
  {
    if p == [] {
      assert q + p == q;
    } else {
      QueuedConcat(q, p[..|p| - 1], r);
      assert (q + p)[..|q + p| - 1] == q + p[..|p| - 1];
    }
  }

  lemma {:induction false} QueuedDelete(queue: seq<Item>, i: nat, r: Root)
    requires i < |queue|
    ensures Queued(Delete(queue, i), r) + (if queue[i].root == r then 1 else 0) == Queued(queue, r)
  {
    var rest := queue[i + 1..];
    assert queue == queue[..i] + ([queue[i]] + rest);
    QueuedConcat(queue[..i], [queue[i]] + rest, r);
    QueuedConcat([queue[i]], rest, r);
    QueuedConcat(queue[..i], rest, r);
  }

  lemma {:induction false} TimesOneMore<T>(s: seq<T>, x: T, y: T)
    ensures Times(s + [x], y) == Times(s, y) + if x == y then 1 else 0
  {
    assert (s + [x])[..|s|] == s;
  }

  /** Every reference taken was released exactly once or is still queued. */
  ghost predicate Balanced(queue: seq<Item>, calls: seq<Call>) {
    forall r :: Times(calls, Reference(r)) == Times(calls, Dereference(r)) + Queued(queue, r)
  }

  lemma {:induction false} TakeBalances(queue: seq<Item>, calls: seq<Call>, item: Item)
    requires Balanced(queue, calls)
    ensures Balanced(queue + [item], calls + [Reference(item.root)])
  {
    forall r ensures Times(calls + [Reference(item.root)], Reference(r))
                  == Times(calls + [Reference(item.root)], Dereference(r)) + Queued(queue + [item], r)
    {
      TimesOneMore(calls, Reference(item.root), Reference(r));
      TimesOneMore(calls, Reference(item.root), Dereference(r));
      assert (queue + [item])[..|queue|] == queue;
    }
  }

  lemma {:induction false} CommitBalances(queue: seq<Item>, calls: seq<Call>, root: Root)
    requires Balanced(queue, calls)
    ensures Balanced(queue, calls + [Commit(root)])
  {
    forall r ensures Times(calls + [Commit(root)], Reference(r)) == Times(calls + [Commit(root)], Dereference(r)) + Queued(queue, r) {
      TimesOneMore(calls, Commit(root), Reference(r));
      TimesOneMore(calls, Commit(root), Dereference(r));
    }
  }

  lemma {:induction false} ReleaseBalances(queue: seq<Item>, calls: seq<Call>, i: nat)
    requires Balanced(queue, calls) && i < |queue|
    ensures Balanced(Delete(queue, i), calls + [Dereference(queue[i].root)])
  {
    var c := Dereference(queue[i].root);
    forall r ensures Times(calls + [c], Reference(r)) == Times(calls + [c], Dereference(r)) + Queued(Delete(queue, i), r) {
      TimesOneMore(calls, c, Reference(r));
      TimesOneMore(calls, c, Dereference(r));
      QueuedDelete(queue, i, r);
    }
  }

  ghost predicate SameCount(p: seq<Item>, q: seq<Item>, it: Item) {
    Times(p, it) == Times(q, it)
  }

  /** The same items, in whatever order. */
  ghost predicate SameItems(p: seq<Item>, q: seq<Item>) {
    forall it: Item :: SameCount(p, q, it)
  }

  /** An item popped and pushed back changes the queue only in its order. */
  lemma {:induction false} PutBack(queue: seq<Item>, calls: seq<Call>, i: nat)
    requires Balanced(queue, calls) && i < |queue|
    ensures Balanced(Delete(queue, i) + [queue[i]], calls)
    ensures SameItems(queue, Delete(queue, i) + [queue[i]])
  {
    forall it ensures SameCount(queue, Delete(queue, i) + [queue[i]], it) {
      TimesDelete(queue, i, it);
      TimesOneMore(Delete(queue, i), queue[i], it);
    }
    forall r ensures Queued(Delete(queue, i) + [queue[i]], r) == Queued(queue, r) {
      QueuedDelete(queue, i, r);
      QueuedConcat(Delete(queue, i), [queue[i]], r);
    }
  }

  /** The calls end with releases only, after the given ones. */
  ghost predicate ThenReleases(calls: seq<Call>, before: seq<Call>) {
    before <= calls && forall i | |before| <= i < |calls| :: calls[i].Dereference?
  }

  ghost predicate RetainsOf(before: seq<Item>, after: seq<Item>, chosen: int, it: Item) {
    Times(after, it) == if it.number > chosen then Times(before, it) else 0
  }

  /** `after` keeps the items of `before` above the height, all of them, and no other. */
  ghost predicate Retains(before: seq<Item>, after: seq<Item>, chosen: int) {
    forall it: Item :: RetainsOf(before, after, chosen, it)
  }

  ghost predicate DrainingOf(before: seq<Item>, after: seq<Item>, chosen: int, it: Item) {
    it.number > chosen ==> Times(after, it) == Times(before, it)
  }

  /** The items popped so far were due, and the others are still there. */
  ghost predicate Draining(before: seq<Item>, after: seq<Item>, chosen: int) {
    forall it: Item :: DrainingOf(before, after, chosen, it)
  }

  lemma {:induction false} NoneBelow(before: seq<Item>, after: seq<Item>, chosen: int)
    requires Draining(before, after, chosen) && forall i | 0 <= i < |after| :: after[i].number > chosen
    ensures Retains(before, after, chosen)
  {
    forall it ensures RetainsOf(before, after, chosen, it) {
      assert DrainingOf(before, after, chosen, it);
      if it.number <= chosen && Times(after, it) > 0 {
        var i := Occurs(after, it);
      }
    }
  }

  lemma {:induction false} DrainsOne(before: seq<Item>, after: seq<Item>, chosen: int, i: nat)
    requires Draining(before, after, chosen) && i < |after| && after[i].number <= chosen
    ensures Draining(before, Delete(after, i), chosen)
  {
    forall it ensures DrainingOf(before, Delete(after, i), chosen, it) {
      assert DrainingOf(before, after, chosen, it);
      TimesDelete(after, i, it);
    }
  }

  lemma {:induction false} NothingReleased(queue: seq<Item>)
    ensures Retains(queue, queue, -1)
  {
    forall it ensures RetainsOf(queue, queue, -1, it) {
    }
  }

  lemma {:induction false} RetainsAny(before: seq<Item>, after: seq<Item>, queue: seq<Item>, chosen: int)
    requires Retains(before, after, chosen) && SameItems(after, queue)
    ensures Retains(before, queue, chosen)
  {
    forall it ensures RetainsOf(before, queue, chosen, it) {
      assert RetainsOf(before, after, chosen, it) && SameCount(after, queue, it);
    }
  }

  // ---- What any sequence of writes leaves queued ---------------------------------------------

  /** A write at height `n` releases what is queued up to this height, if anything. */
  function Bound(n: nat): int {
    if n > TRIES_IN_MEMORY then n - TRIES_IN_MEMORY else -1
  }

  /** No write from the `i`-th on released the `i`-th item. */
  ghost predicate Held(written: seq<Item>, i: nat)
    requires i < |written|
  {
    forall j | i <= j < |written| :: Bound(written[j].number) < written[i].number
  }

  /** Those of the first `n` items that are held, in order. */
  ghost function Survivors(written: seq<Item>, n: nat): seq<Item>
    requires n <= |written|
  {
    if n == 0 then []
    else Survivors(written, n - 1) + if Held(written, n - 1) then [written[n - 1]] else []
  }

  /** How many of the first `n` items have this root and are not held. */
  ghost function Obsolete(written: seq<Item>, n: nat, r: Root): nat
    requires n <= |written|
  {
    if n == 0 then 0
    else Obsolete(written, n - 1, r) + if written[n - 1].root == r && !Held(written, n - 1) then 1 else 0
  }

  /** The queue holds exactly the items that no later write released, and each write took one reference. */
  ghost predicate Follows(queue: seq<Item>, calls: seq<Call>, written: seq<Item>) {
    && SameItems(queue, Survivors(written, |written|))
    && forall r :: Times(calls, Reference(r)) == Queued(written, r)
  }

  lemma {:induction false} HeldAfter(written: seq<Item>, item: Item, i: nat)
    requires i < |written|
    ensures Held(written + [item], i) <==> Held(written, i) && Bound(item.number) < written[i].number
  {
    var all := written + [item];
    assert forall j | 0 <= j < |written| :: all[j] == written[j];
    assert all[|written|] == item;
  }

  lemma {:induction false} SurvivorsAfter(written: seq<Item>, item: Item, n: nat, it: Item)
    requires n <= |written|
    ensures RetainsOf(Survivors(written, n), Survivors(written + [item], n), Bound(item.number), it)
  {
    if n > 0 {
      SurvivorsAfter(written, item, n - 1, it);
      HeldAfter(written, item, n - 1);
      var before, after := Survivors(written, n - 1), Survivors(written + [item], n - 1);
      assert (written + [item])[n - 1] == written[n - 1];
      TimesOneMore(before, written[n - 1], it);
      TimesOneMore(after, written[n - 1], it);
      assert before + [] == before && after + [] == after;
    }
  }

  /** One more write: the survivors are those of before and the new item, less what it releases. */
  lemma {:induction false} SurvivorsStep(written: seq<Item>, item: Item, it: Item)
    ensures RetainsOf(Survivors(written, |written|) + [item], Survivors(written + [item], |written| + 1), Bound(item.number), it)
  {
    SurvivorsAfter(written, item, |written|, it);
    assert Held(written + [item], |written|);
    TimesOneMore(Survivors(written, |written|), item, it);
    TimesOneMore(Survivors(written + [item], |written|), item, it);
  }

  lemma {:induction false} QueuedSame(q: seq<Item>, p: seq<Item>, r: Root)
    requires SameItems(q, p)
    ensures Queued(q, r) == Queued(p, r)
  {
    if q == [] {
      if p != [] {
        var same := SameCount(q, p, p[|p| - 1]);
        assert false;
      }
    } else {
      var front, last := q[..|q| - 1], q[|q| - 1];
      assert SameCount(q, p, last);
      var i := Occurs(p, last);
      forall it ensures SameCount(front, Delete(p, i), it) {
        assert SameCount(q, p, it);
        TimesDelete(p, i, it);
      }
      QueuedSame(front, Delete(p, i), r);
      QueuedDelete(p, i, r);
    }
  }

  lemma {:induction false} SurvivorsCount(written: seq<Item>, n: nat, r: Root)
    requires n <= |written|
    ensures Queued(Survivors(written, n), r) + Obsolete(written, n, r) == Queued(written[..n], r)
  {
    if n > 0 {
      SurvivorsCount(written, n - 1, r);
      assert written[..n][..n - 1] == written[..n - 1];
      QueuedConcat(Survivors(written, n - 1), if Held(written, n - 1) then [written[n - 1]] else [], r);
    }
  }

  /** After any sequence of writes a root has been released exactly as often as it was written and
      a later write, or the same one, made it obsolete. */
  lemma {:induction false} ReleasedExactly(queue: seq<Item>, calls: seq<Call>, written: seq<Item>, r: Root)
    requires Balanced(queue, calls) && Follows(queue, calls, written)
    ensures Times(calls, Dereference(r)) == Obsolete(written, |written|, r)
  {
    QueuedSame(queue, Survivors(written, |written|), r);
    SurvivorsCount(written, |written|, r);
    assert written[..|written|] == written;
  }

  /** When the write of a block at height `number` is about to commit the root that was written for the
      height falling out of memory, that root is still queued if and only if no write since was as high. */
  lemma {:induction false} DueIsHeld(written: seq<Item>, i: nat, number: nat)
    requires i < |written| && number > TRIES_IN_MEMORY && written[i].number == number - TRIES_IN_MEMORY
    ensures Held(written, i) <==> forall j | i < j < |written| :: written[j].number < number
  {
    if forall j | i < j < |written| :: written[j].number < number {
      forall j | i <= j < |written| ensures Bound(written[j].number) < written[i].number {
      }
    } else {
      var j :| i < j < |written| && written[j].number >= number;
      assert Bound(written[j].number) >= written[i].number;
    }
  }

  lemma {:induction false} ObsoleteOnce(written: seq<Item>, n: nat, i: nat)
    requires n <= |written| && i < |written|
    requires forall j | 0 <= j < |written| && j != i :: written[j].root != written[i].root
    ensures Obsolete(written, n, written[i].root) == if i < n && !Held(written, i) then 1 else 0
  {
    if n > 0 {
      ObsoleteOnce(written, n - 1, i);
    }
  }

  /** A root that was written once, for the height falling out of memory, has not been released when its
      commit is due if and only if no write since was as high as the one that makes it due. */
  lemma {:induction false} CommittedFirst(queue: seq<Item>, calls: seq<Call>, written: seq<Item>, i: nat, number: nat)
    requires Balanced(queue, calls) && Follows(queue, calls, written)
    requires i < |written| && number > TRIES_IN_MEMORY && written[i].number == number - TRIES_IN_MEMORY
    requires forall j | 0 <= j < |written| && j != i :: written[j].root != written[i].root
    ensures Times(calls, Dereference(written[i].root)) == 0 <==> forall j | i < j < |written| :: written[j].number < number
  {
    ReleasedExactly(queue, calls, written, written[i].root);
    ObsoleteOnce(written, |written|, i);
    DueIsHeld(written, i, number);
  }

  lemma {:induction false} FollowsAfter(queue: seq<Item>, calls: seq<Call>, written: seq<Item>, item: Item, queue': seq<Item>, calls': seq<Call>)
    requires Follows(queue, calls, written) && Retains(queue + [item], queue', Bound(item.number))
    requires forall r :: Times(calls', Reference(r)) == Times(calls, Reference(r)) + if item.root == r then 1 else 0
    ensures Follows(queue', calls', written + [item])
  {
    var survivors, after := Survivors(written, |written|), Survivors(written + [item], |written| + 1);
    forall it ensures SameCount(queue', after, it) {
      SurvivorsStep(written, item, it);
      assert RetainsOf(queue + [item], queue', Bound(item.number), it) && SameCount(queue, survivors, it);
      TimesOneMore(queue, item, it);
      TimesOneMore(survivors, item, it);
    }
    forall r ensures Times(calls', Reference(r)) == Queued(written + [item], r) {
      assert (written + [item])[..|written|] == written;
    }
  }

  lemma {:induction false} ReleasesTakeNone(calls: seq<Call>, before: seq<Call>, r: Root)
    requires ThenReleases(calls, before)
    ensures Times(calls, Reference(r)) == Times(before, Reference(r))
    decreases |calls|
  {
    if |calls| == |before| {
      assert calls == before;
    } else {
      ReleasesTakeNone(calls[..|calls| - 1], before, r);
    }
  }

  /** A write takes one reference, whether it commits and releases or not. */
  lemma {:induction false} TakesOne(before: seq<Call>, root: Root, commits: seq<Call>, calls: seq<Call>)
    requires commits == [] || (|commits| == 1 && commits[0].Commit?)
    requires ThenReleases(calls, before + [Reference(root)] + commits)
    ensures forall r :: Times(calls, Reference(r)) == Times(before, Reference(r)) + if root == r then 1 else 0
  {
    forall r ensures Times(calls, Reference(r)) == Times(before, Reference(r)) + if root == r then 1 else 0 {
      var taken := before + [Reference(root)];
      TimesOneMore(before, Reference(root), Reference(r));
      if commits == [] {
        assert taken + commits == taken;
      } else {
        assert commits == [commits[0]];
        TimesOneMore(taken, commits[0], Reference(r));
      }
      ReleasesTakeNone(calls, taken + commits, r);
    }
  }

  class TrieGc {
    var queue: seq<Item>
    var calls: seq<Call>
    var gcproc: nat
    var lastWrite: nat
    ghost var written: seq<Item>  // the roots written so far, in order

    ghost predicate Valid()
      reads this
    {
      Balanced(queue, calls) && Follows(queue, calls, written)
    }

    constructor ()
      ensures Valid() && queue == [] && calls == [] && written == [] && gcproc == 0
    {
      queue, calls, gcproc, lastWrite, written := [], [], 0, 0, [];
    }

    /** The index of an item of least height, which has the highest priority. */
    method Least() returns (k: nat)
      requires queue != []
      ensures k < |queue| && forall i | 0 <= i < |queue| :: queue[k].number <= queue[i].number
    {
      k := 0;
      for i := 1 to |queue|
        invariant k < |queue| && forall j | 0 <= j < i :: queue[k].number <= queue[j].number
      {
        if queue[i].number < queue[k].number { k := i; }
      }
    }

    method Release(k: nat)
      requires Balanced(queue, calls) && k < |queue|
      modifies this`queue, this`calls
      ensures Balanced(queue, calls) && queue == Delete(old(queue), k) && calls == old(calls) + [Dereference(old(queue)[k].root)]
    {
      ReleaseBalances(queue, calls, k);
      var item := queue[k];
      queue := Delete(queue, k);
      calls := calls + [Dereference(item.root)];
    }

    /** Pops an item and pushes it back. */
    method Return(k: nat)
      requires Balanced(queue, calls) && k < |queue|
      modifies this`queue
      ensures Balanced(queue, calls) && SameItems(old(queue), queue)
    {
      PutBack(queue, calls, k);
      var item := queue[k];
      queue := Delete(queue, k);
      queue := queue + [item];
    }

    /** Releases every root at or below the height, least first; the first one above goes back. */
    method Collect(chosen: nat)
      requires Balanced(queue, calls)
      modifies this`queue, this`calls
      ensures Balanced(queue, calls) && Retains(old(queue), queue, chosen) && ThenReleases(calls, old(calls))
    {
      while queue != []
        invariant Balanced(queue, calls) && Draining(old(queue), queue, chosen) && ThenReleases(calls, old(calls))
        decreases |queue|
      {
        var k := Least();
        var item := queue[k];
        if item.number > chosen {
          ghost var left := queue;
          NoneBelow(old(queue), queue, chosen);
          Return(k);
          RetainsAny(old(queue), left, queue, chosen);
          return;
        }
        DrainsOne(old(queue), queue, chosen, k);
        Release(k);
      }
      NoneBelow(old(queue), queue, chosen);
    }

    /** Writes the state of a block. `header` is the root of the canonical block at the height that
        falls out of memory, if there is one. The queue goes on holding exactly the roots that no
        later write released; a commit that is due comes before the releases of this write. */
    method WriteState(root: Root, number: nat, elapsed: nat, flushInterval: nat, header: Option<Root>)
      requires Valid()
      modifies this
      ensures Valid() && written == old(written) + [Item(root, number)]
      ensures var due := number > TRIES_IN_MEMORY && old(gcproc) + elapsed > flushInterval && header.Some?;
              && ThenReleases(calls, old(calls) + [Reference(root)] + if due then [Commit(header.value)] else [])
              && gcproc == (if due then 0 else old(gcproc) + elapsed)
              && lastWrite == (if due then number - TRIES_IN_MEMORY else old(lastWrite))
    {
      gcproc := gcproc + elapsed;
      TakeBalances(queue, calls, Item(root, number));
      calls, queue := calls + [Reference(root)], queue + [Item(root, number)];
      ghost var commits: seq<Call> := [];
      if number > TRIES_IN_MEMORY {
        var chosen := number - TRIES_IN_MEMORY;
        if gcproc > flushInterval && header.Some? {
          CommitBalances(queue, calls, header.value);
          commits := [Commit(header.value)];
          calls := calls + [Commit(header.value)];
          lastWrite, gcproc := chosen, 0;
        }
        Collect(chosen);
      } else {
        NothingReleased(queue);
      }
      TakesOne(old(calls), root, commits, calls);
      FollowsAfter(old(queue), old(calls), written, Item(root, number), queue, calls);
      written := written + [Item(root, number)];
    }

    /** Commits the recent states and releases everything, which balances the references. */
    method Stop(recent: seq<Root>)
      requires Valid()
      modifies this`queue, this`calls
      ensures queue == [] && forall r :: Times(calls, Reference(r)) == Times(calls, Dereference(r))
      ensures exists commits: seq<Call> :: |commits| == |recent| && (forall i | 0 <= i < |recent| :: commits[i] == Commit(recent[i]))
                                           && ThenReleases(calls, old(calls) + commits)
    {
      ghost var commits: seq<Call> := [];
      for i := 0 to |recent|
        invariant Balanced(queue, calls) && queue == old(queue) && calls == old(calls) + commits
        invariant |commits| == i && forall j | 0 <= j < i :: commits[j] == Commit(recent[j])
      {
        CommitBalances(queue, calls, recent[i]);
        calls, commits := calls + [Commit(recent[i])], commits + [Commit(recent[i])];
      }
      while queue != []
        invariant Balanced(queue, calls) && ThenReleases(calls, old(calls) + commits)
        decreases |queue|
      {
        var k := Least();
        Release(k);
      }
    }
  }

  /** Heights 100, 300 and 228: the third write commits the root of height 100, which the second one
      has released already. */
  method LateCommit() returns (before: seq<Call>, after: seq<Call>)
    ensures Times(before, Dereference(Root(1))) == 1 && before + [Reference(Root(3)), Commit(Root(1))] <= after
  {
    var gc := new TrieGc();
    gc.WriteState(Root(1), 100, 0, 10, None);
    gc.WriteState(Root(2), 300, 0, 10, None);
    before := gc.calls;
    assert gc.written == [Item(Root(1), 100), Item(Root(2), 300)];
    ReleasedExactly(gc.queue, gc.calls, gc.written, Root(1));
    ObsoleteOnce(gc.written, 2, 0);
    DueIsHeld(gc.written, 0, 228);
    gc.WriteState(Root(3), 228, 11, 10, Some(Root(1)));
    after := gc.calls;
    assert before + [Reference(Root(3))] + [Commit(Root(1))] == before + [Reference(Root(3)), Commit(Root(1))];
  }

  /** What stays queued is not bounded by the highest write so far: a lower block written later stays. */
  lemma {:induction false} LowWriteStays()
    ensures var written := [Item(Root(1), 300), Item(Root(2), 150)];
            Bound(300) >= 150 && Survivors(written, 2) == written
  {
    var written := [Item(Root(1), 300), Item(Root(2), 150)];
    assert Held(written, 0) && Held(written, 1);
    assert Survivors(written, 0) == [];
    assert Survivors(written, 1) == [written[0]];
  }
}
