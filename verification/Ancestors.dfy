/** Fast ancestor lookups against the plain parent walk. */
module Ancestors {
  import opened Common
  import opened ChainDb

  /** The hash `k` parents above `h`; ZERO once the walk leaves the store. */
  ghost function NthParent(headers: map<Hash, Header>, h: Hash, k: nat): Hash
    decreases k
  {
    if k == 0 then h
    else if h in headers then NthParent(headers, headers[h].parent, k - 1)
    else ZERO
  }

  lemma {:induction false} NthParentAdds(headers: map<Hash, Header>, h: Hash, j: nat, k: nat)
    requires ZERO !in headers
    ensures NthParent(headers, h, j + k) == if k == 0 then NthParent(headers, h, j) else NthParent(headers, NthParent(headers, h, j), k)
    decreases j
  {
    if j > 0 && h in headers {
      NthParentAdds(headers, headers[h].parent, j - 1, k);
    }
  }

  /** Counting parents and asking for a height are the same walk. */
  lemma {:induction false} NthParentIsAncestor(headers: map<Hash, Header>, h: Hash, k: nat)
    requires Linked(headers) && h in headers && k <= headers[h].number
    ensures AncestorAt(headers, h, headers[h].number - k) != ZERO ==> NthParent(headers, h, k) == AncestorAt(headers, h, headers[h].number - k)
    decreases k
  {
    if k > 0 && AncestorAt(headers, h, headers[h].number - k) != ZERO {
      NthParentIsAncestor(headers, headers[h].parent, k - 1);
    }
  }

  lemma {:induction false} NthParentNumber(headers: map<Hash, Header>, h: Hash, k: nat)
    requires Linked(headers) && NthParent(headers, h, k) in headers
    ensures h in headers && headers[NthParent(headers, h, k)].number + k == headers[h].number
    decreases k
  {
    if k > 0 && h in headers {
      NthParentNumber(headers, headers[h].parent, k - 1);
    }
  }

  /** The canonical index answers for every ancestor from the base up. */
  lemma {:induction false} IndexAnswers(db: Db, head: Hash, base: nat, h: Hash, number: nat, k: nat)
    requires Canonical(db, head, base) && number in db.canon && db.canon[number] == h && k <= number && base <= number - k
    ensures number - k in db.canon && db.canon[number - k] == NthParent(db.headers, h, k)
  {
    LineFilled(db.headers, head, base, number);
    AncestorTransitive(db.headers, head, number, number - k);
    LineFilled(db.headers, head, base, number - k);
    NthParentIsAncestor(db.headers, h, k);
  }

  /** Below the base the walk is over, so an index entry there (genesis, on a chain whose
      index jumps) is never the ancestor that the walk gives. */
  lemma {:induction false} WalkEndsAtBase(db: Db, head: Hash, base: nat, h: Hash, number: nat, k: nat)
    requires Canonical(db, head, base) && number in db.canon && db.canon[number] == h && base <= number && number < base + k
    ensures NthParent(db.headers, h, k) == ZERO
  {
    var d := number - base;
    IndexAnswers(db, head, base, h, number, d);
    NthParentAdds(db.headers, h, d, k - d);
  }

  /** rawdb.ReadCanonicalHash: a missing number reads as the empty hash. */
  function Lookup(canon: map<nat, Hash>, n: nat): Hash {
    if n in canon then canon[n] else ZERO
  }

  ghost predicate Readable(headers: map<Hash, Header>, h: Hash, number: nat, i: nat) {
    var a := NthParent(headers, h, i);
    a in headers && headers[a].number == number - i
  }

  /** The first `k` headers from the block `h` at `number` down can be read. */
  ghost predicate Walkable(headers: map<Hash, Header>, h: Hash, number: nat, k: nat) {
    forall i: nat | i < k :: Readable(headers, h, number, i)
  }

  /** The `j`-th parent of `h` can be read to, and its hash is what the index says at its height. */
  ghost predicate OnIndex(db: Db, h: Hash, number: nat, j: nat) {
    && j <= number && Lookup(db.canon, number - j) == NthParent(db.headers, h, j)
    && Walkable(db.headers, h, number, j)
  }

  /** The index is met before the ancestor asked for, within the allowance. */
  ghost predicate MeetsIndex(db: Db, h: Hash, number: nat, ancestor: nat, allowance: nat) {
    exists j: nat :: j <= allowance && j < ancestor && OnIndex(db, h, number, j)
  }

  /** What a lookup answers: the parent for one step; else what the index has at the height asked for,
      if the walk meets the index in time; else the end of the walk, if it fits the allowance. */
  ghost function Answer(db: Db, h: Hash, number: nat, ancestor: nat, allowance: nat): Hash {
    if ancestor > number then ZERO
    else if ancestor == 1 then if Walkable(db.headers, h, number, 1) then NthParent(db.headers, h, 1) else ZERO
    else if MeetsIndex(db, h, number, ancestor, allowance) then Lookup(db.canon, number - ancestor)
    else if ancestor <= allowance && Walkable(db.headers, h, number, ancestor) then NthParent(db.headers, h, ancestor)
    else ZERO
  }

  /** The first `k` headers from the block `h` at `number` down are stored, and none of them is in the index. */
  ghost predicate OffIndex(db: Db, h: Hash, number: nat, k: nat) {
    forall i: nat | i < k ::
      var a := NthParent(db.headers, h, i);
      i <= number && a in db.headers && db.headers[a].number == number - i && !(number - i in db.canon && db.canon[number - i] == a)
  }

  /** A walk that never meets the index and fits the allowance ends at the ancestor asked for. */
  lemma {:induction false} PureWalk(db: Db, h: Hash, number: nat, ancestor: nat, allowance: nat)
    requires Linked(db.headers) && ancestor <= number && ancestor <= allowance && OffIndex(db, h, number, ancestor)
    ensures Answer(db, h, number, ancestor, allowance) == NthParent(db.headers, h, ancestor)
  {
    forall i: nat | i < ancestor ensures Readable(db.headers, h, number, i) && !OnIndex(db, h, number, i) {
      assert NthParent(db.headers, h, i) in db.headers;
    }
  }

  function GetHeader(headers: map<Hash, Header>, h: Hash, n: int): Option<Header> {
    if h in headers && headers[h].number == n then Some(headers[h]) else None
  }

  /** The ancestor `ancestor` parents above the block `h` at `number`, with `allowance` the number of
      headers that may be read one by one; `taken` counts the headers read. A single step is not
      charged to the allowance. */
  method GetAncestor(db: Db, h: Hash, number: nat, ancestor: nat, allowance: nat)
    returns (r: Hash, n: nat, left: nat, taken: nat)
    requires Linked(db.headers)
    ensures r == Answer(db, h, number, ancestor, allowance)
    ensures r != ZERO ==> n == number - ancestor
    ensures if ancestor == 1 then taken <= 1 && left == allowance else left + taken == allowance
    ensures ancestor == 0 ==> r == h && n == number
    ensures ancestor == 1 && ancestor <= number && h in db.headers && db.headers[h].number == number ==> r == NthParent(db.headers, h, 1)
    ensures ancestor <= number && ancestor <= allowance && OffIndex(db, h, number, ancestor) ==> r == NthParent(db.headers, h, ancestor)
  {
    if ancestor <= number && ancestor <= allowance && OffIndex(db, h, number, ancestor) {
      PureWalk(db, h, number, ancestor, allowance);
    }
    left, taken := allowance, 0;
    if ancestor > number {
      return ZERO, 0, left, taken;
    }
    if ancestor == 1 {
      var header := GetHeader(db.headers, h, number);
      assert Readable(db.headers, h, number, 0) <==> header.Some?;
      if header.Some? {
        return header.value.parent, number - 1, left, 1;
      }
      return ZERO, 0, left, 1;
    }
    var hash, m, a := h, number, ancestor;
    while a != 0
      invariant 0 <= a <= ancestor && number - m == ancestor - a == allowance - left == taken && 0 <= left
      invariant hash == NthParent(db.headers, h, ancestor - a) && Walkable(db.headers, h, number, ancestor - a)
      invariant forall j: nat | j < ancestor - a :: !OnIndex(db, h, number, j)
      decreases a
    {
      if Lookup(db.canon, m) == hash {
        assert OnIndex(db, h, number, ancestor - a);
        return Lookup(db.canon, m - a), m - a, left, taken;
      }
      if left == 0 {
        assert !MeetsIndex(db, h, number, ancestor, allowance);
        return ZERO, 0, left, taken;
      }
      left, a, taken := left - 1, a - 1, taken + 1;
      var header := GetHeader(db.headers, hash, m);
      if header.None? {
        assert !Readable(db.headers, h, number, ancestor - a - 1);
        assert !MeetsIndex(db, h, number, ancestor, allowance);
        return ZERO, 0, left, taken;
      }
      NthParentAdds(db.headers, h, ancestor - a - 1, 1);
      hash, m := header.value.parent, m - 1;
    }
    return hash, m, left, taken;
  }

  lemma {:induction false} WalkOver(headers: map<Hash, Header>, h: Hash, j: nat, k: nat)
    requires Linked(headers) && j < k && NthParent(headers, h, j) == ZERO
    ensures NthParent(headers, h, k) == ZERO
  {
    NthParentAdds(headers, h, j, k - j);
  }

  /** The height of the meeting is on the canonical chain from the base up, or the walk has ended there. */
  lemma {:induction false} MeetingHeight(db: Db, head: Hash, base: nat, h: Hash, number: nat, j: nat)
    requires Canonical(db, head, base) && OnIndex(db, h, number, j) && NthParent(db.headers, h, j) != ZERO && base <= number - j
    ensures number - j in db.canon && db.canon[number - j] == NthParent(db.headers, h, j)
  {
  }

  /** A block that is canonical, or has a canonical ancestor within the allowance, gets the right
      ancestor at every height from the base up. */
  lemma {:induction false} AnswerRight(db: Db, head: Hash, base: nat, h: Hash, number: nat, ancestor: nat, allowance: nat, j: nat)
    requires Canonical(db, head, base) && ancestor != 1 && base <= number - ancestor
    requires j <= allowance && j < ancestor && OnIndex(db, h, number, j) && NthParent(db.headers, h, j) != ZERO
    ensures Answer(db, h, number, ancestor, allowance) == NthParent(db.headers, h, ancestor) != ZERO
  {
    MeetingHeight(db, head, base, h, number, j);
    IndexAnswers(db, head, base, NthParent(db.headers, h, j), number - j, ancestor - j);
    NthParentAdds(db.headers, h, j, ancestor - j);
    LineFilled(db.headers, head, base, number - ancestor);
  }

  /** The answer is wrong exactly when the height asked for lies below the base and the index has an
      entry there, which on X Layer is the genesis block; or when the walk has ended at a height
      without an entry, which reads like an agreement, and the index has one where it was asked. */
  lemma {:induction false} AnswerWrong(db: Db, head: Hash, base: nat, h: Hash, number: nat, ancestor: nat, allowance: nat, j: nat)
    requires Canonical(db, head, base) && ancestor != 1 && ancestor <= number
    requires j <= allowance && j < ancestor && OnIndex(db, h, number, j) && (base <= number - j || NthParent(db.headers, h, j) == ZERO)
    ensures Answer(db, h, number, ancestor, allowance) != NthParent(db.headers, h, ancestor)
            <==> Lookup(db.canon, number - ancestor) != ZERO && (number - ancestor < base || NthParent(db.headers, h, j) == ZERO)
  {
    var meeting := NthParent(db.headers, h, j);
    if meeting == ZERO {
      WalkOver(db.headers, h, j, ancestor);
    } else if base <= number - ancestor {
      AnswerRight(db, head, base, h, number, ancestor, allowance, j);
    } else {
      MeetingHeight(db, head, base, h, number, j);
      WalkEndsAtBase(db, head, base, meeting, number - j, ancestor - j);
      NthParentAdds(db.headers, h, j, ancestor - j);
    }
  }

  /** A chain whose index jumps from genesis to a first block at height 5. */
  function JumpDb(): Db {
    Db(map[Hash(1) := Header(Hash(1), ZERO, 0, 0, ZERO), Hash(2) := Header(Hash(2), ZERO, 5, 0, ZERO)],
       map[], map[0 := Hash(1), 5 := Hash(2)], map[], Hash(2), Hash(2), Hash(2))
  }

  /** Asked for the fifth parent of its first block, it names genesis, which is no ancestor of it. */
  lemma {:induction false} GenesisIsNoAncestor()
    ensures Canonical(JumpDb(), Hash(2), 5)
    ensures Answer(JumpDb(), Hash(2), 5, 5, 0) == Hash(1) && NthParent(JumpDb().headers, Hash(2), 5) == ZERO
  {
    assert AncestorAt(JumpDb().headers, Hash(2), 5) == Hash(2);
    assert OnIndex(JumpDb(), Hash(2), 5, 0);
    assert NthParent(JumpDb().headers, Hash(2), 1) == NthParent(JumpDb().headers, ZERO, 0) == ZERO;
    WalkOver(JumpDb().headers, Hash(2), 1, 5);
  }

  /** The BLOCKHASH source of a block: hashes of its ancestors, found once and kept. */
  class HashFn {
    const headers: map<Hash, Header>
    const ref: Header
    var cache: seq<Hash>

    /** The cache holds the parents of `ref`, nearest first, as far as they were walked. */
    ghost predicate Valid()
      reads this
    {
      && Linked(headers) && (ref.parent in headers ==> headers[ref.parent].number + 1 == ref.number)
      && (forall i | 0 <= i < |cache| :: cache[i] == NthParent(headers, ref.parent, i))
      && (forall i | 0 <= i < |cache| - 1 :: cache[i] in headers)
    }

    constructor (headers: map<Hash, Header>, ref: Header)
      requires Linked(headers) && (ref.parent in headers ==> headers[ref.parent].number + 1 == ref.number)
      ensures this.headers == headers && this.ref == ref && cache == [] && Valid()
    {
      this.headers, this.ref, this.cache := headers, ref, [];
    }

    method Get(n: nat) returns (r: Hash)
      requires Valid()
      modifies this`cache
      ensures Valid() && old(cache) <= cache
      ensures r == if ref.number <= n then ZERO else NthParent(headers, ref.parent, ref.number - 1 - n)
    {
      if ref.number <= n {
        return ZERO;
      }
      if |cache| == 0 {
        cache := [ref.parent];
      }
      var idx := ref.number - n - 1;
      if idx < |cache| {
        return cache[idx];
      }
      var last := cache[|cache| - 1];
      var lastNumber := ref.number - |cache|;
      if last in headers {
        NthParentNumber(headers, ref.parent, |cache| - 1);
      }
      while true
        invariant Valid() && 0 < |cache| <= idx && old(cache) <= cache
        invariant last == cache[|cache| - 1] && lastNumber == ref.number - |cache|
        invariant last in headers ==> headers[last].number == lastNumber
        decreases idx - |cache|
      {
        NthParentAdds(headers, ref.parent, |cache| - 1, 1);
        NthParentAdds(headers, ref.parent, |cache| - 1, idx - |cache| + 1);
        var header := GetHeader(headers, last, lastNumber);
        if header.None? {
          return ZERO;
        }
        cache := cache + [header.value.parent];
        last, lastNumber := header.value.parent, header.value.number - 1;
        if n == lastNumber {
          return last;
        }
      }
    }
  }
}
