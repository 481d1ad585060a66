/**
 * Transactions and the per-address histories the store keeps.
 *
 * A history map sends each subscribed address (in canonical form) to the
 * ordered list of transactions in which that address is sender or recipient.
 * `Commit` is the effect of one block on such a map, computed the way the
 * store's loop computes it (transaction by transaction, sender check before
 * recipient check); `Relevant` is the declarative description of what a block
 * adds to one address, and `CommitAt` ties the two together.
 */
module Ledger {
  import opened Address

  /**
   * One chain transaction. Only the sender, the recipient and the hash are
   * interpreted; the value and every other field are carried along untouched.
   */
  datatype Transaction = Transaction(
    hash: string,
    from: string,
    to: string,
    value: string,
    extra: map<string, string>)

  /** Per-address histories, keyed by canonical address. */
  type Histories = map<string, seq<Transaction>>

  /** The transaction names `addr` as sender or recipient (up to case). */
  predicate Touches(addr: string, tx: Transaction) {
    ToLower(tx.from) == addr || ToLower(tx.to) == addr
  }

  /** How many times one transaction is recorded for `addr`: once per matching side. */
  function Multiplicity(addr: string, tx: Transaction): (n: nat)
    ensures n <= 2
    ensures n > 0 <==> Touches(addr, tx)
  {
    (if ToLower(tx.from) == addr then 1 else 0) + (if ToLower(tx.to) == addr then 1 else 0)
  }

  /** What one transaction adds to the history of `addr`. */
  function Hits(addr: string, tx: Transaction): (r: seq<Transaction>)
    ensures |r| == Multiplicity(addr, tx)
    ensures forall t :: t in r ==> t == tx
  {
    (if ToLower(tx.from) == addr then [tx] else []) + (if ToLower(tx.to) == addr then [tx] else [])
  }

  /**
   * What a block adds to the history of `addr`: its transactions that touch
   * `addr`, in block order, a self-transfer counted twice.
   */
  function Relevant(addr: string, block: seq<Transaction>): (r: seq<Transaction>)
    ensures |r| <= 2 * |block|
  {
    if block == [] then []
    else Relevant(addr, block[..|block| - 1]) + Hits(addr, block[|block| - 1])
  }

  /** Keys are canonical and each history holds only transactions touching its key. */
  predicate WellIndexed(m: Histories) {
    && (forall k :: k in m ==> IsNormalized(k))
    && (forall k, t :: k in m && t in m[k] ==> Touches(k, t))
  }

  /** The history `address` reads: its list if subscribed, otherwise empty. */
  function Lookup(m: Histories, address: string): (r: seq<Transaction>)
    ensures ToLower(address) !in m ==> r == []
  {
    var key := ToLower(address);
    if key in m then m[key] else []
  }

  /**
   * One append guarded by "the key is already present": a subscribed key's
   * history gains `tx` at its end, and nothing else changes.
   */
  function AppendIfPresent(m: Histories, key: string, tx: Transaction): (r: Histories)
    ensures r.Keys == m.Keys
    ensures key in m ==> r[key] == m[key] + [tx]
    ensures forall k :: k in m && k != key ==> r[k] == m[k]
  {
    if key in m then m[key := m[key] + [tx]] else m
  }

  /** The effect of one transaction: the sender check, then the recipient check. */
  function CommitTx(m: Histories, tx: Transaction): (r: Histories)
    ensures r.Keys == m.Keys
  {
    AppendIfPresent(AppendIfPresent(m, ToLower(tx.from), tx), ToLower(tx.to), tx)
  }

  /** The effect of one block, transaction by transaction; no address is added or removed. */
  function Commit(m: Histories, block: seq<Transaction>): (r: Histories)
    ensures r.Keys == m.Keys
  {
    if block == [] then m else CommitTx(Commit(m, block[..|block| - 1]), block[|block| - 1])
  }

  /** Committing one more transaction of a block extends the commit of the prefix before it. */
  lemma CommitStep(m: Histories, block: seq<Transaction>, i: nat)
    requires i < |block|
    ensures Commit(m, block[..i + 1]) == CommitTx(Commit(m, block[..i]), block[i])
  {
    assert block[..i + 1][..i] == block[..i];
  }

  /** All blocks of `blocks`, concatenated in order. */
  function Flatten(blocks: seq<seq<Transaction>>): seq<Transaction>
  {
    if blocks == [] then [] else Flatten(blocks[..|blocks| - 1]) + blocks[|blocks| - 1]
  }

  /** Committing several blocks in turn, earliest first; no address is added or removed. */
  function CommitAll(m: Histories, blocks: seq<seq<Transaction>>): (r: Histories)
    ensures r.Keys == m.Keys
  {
    if blocks == [] then m else Commit(CommitAll(m, blocks[..|blocks| - 1]), blocks[|blocks| - 1])
  }

  /** One transaction adds to a subscribed history exactly its hits on that address. */
  lemma CommitTxAt(m: Histories, tx: Transaction, k: string)
    requires k in m
    ensures CommitTx(m, tx)[k] == m[k] + Hits(k, tx)
  {
  }

  /**
   * The meaning of a commit: each subscribed history grows by exactly the
   * block's transactions touching that address, in block order.
   */
  lemma {:induction false} CommitAt(m: Histories, block: seq<Transaction>, k: string)
    requires k in m
    ensures Commit(m, block)[k] == m[k] + Relevant(k, block)
  {
    if block != [] {
      var init, last := block[..|block| - 1], block[|block| - 1];
      CommitAt(m, init, k);
      CommitTxAt(Commit(m, init), last, k);
      Reassociate(m[k], Relevant(k, init), Hits(k, last));
    }
  }

  /** Committing a run of blocks adds to each subscribed history what their concatenation adds. */
  lemma {:induction false} CommitAllAt(m: Histories, blocks: seq<seq<Transaction>>, k: string)
    requires k in m
    ensures CommitAll(m, blocks)[k] == m[k] + Relevant(k, Flatten(blocks))
  {
    if blocks != [] {
      var earlier, last := blocks[..|blocks| - 1], blocks[|blocks| - 1];
      var before := CommitAll(m, earlier);
      CommitAllAt(m, earlier, k);
      CommitAt(before, last, k);
      RelevantAppend(k, Flatten(earlier), last);
      Reassociate(m[k], Relevant(k, Flatten(earlier)), Relevant(k, last));
    }
  }

  /** Ordering: what two consecutive pieces add is what the first adds, then the second. */
  lemma {:induction false} RelevantAppend(addr: string, a: seq<Transaction>, b: seq<Transaction>)
    ensures Relevant(addr, a + b) == Relevant(addr, a) + Relevant(addr, b)
  {
    if b == [] {
      assert a + b == a;
    } else {
      var b', last := b[..|b| - 1], b[|b| - 1];
      var ab := a + b;
      assert ab[..|ab| - 1] == a + b';
      assert ab[|ab| - 1] == last;
      assert Relevant(addr, ab) == Relevant(addr, a + b') + Hits(addr, last);
      RelevantAppend(addr, a, b');
      Reassociate(Relevant(addr, a), Relevant(addr, b'), Hits(addr, last));
    }
  }

  /** Appending two pieces in turn is appending their concatenation. */
  lemma Reassociate<T>(h: seq<T>, a: seq<T>, b: seq<T>)
    ensures (h + a) + b == h + (a + b)
  {
  }

  /** Every transaction a block adds to the history of `addr` touches `addr`. */
  lemma {:induction false} RelevantTouches(addr: string, block: seq<Transaction>)
    ensures forall t :: t in Relevant(addr, block) ==> Touches(addr, t)
  {
    if block != [] {
      RelevantTouches(addr, block[..|block| - 1]);
      var h := Hits(addr, block[|block| - 1]);
      assert forall t :: t in h ==> Touches(addr, t);
    }
  }

  /** The occurrences of `t` that one transaction contributes to the history of `addr`. */
  lemma HitsCount(addr: string, tx: Transaction, t: Transaction)
    ensures multiset(Hits(addr, tx))[t]
         == (if ToLower(t.from) == addr && tx == t then 1 else 0)
          + (if ToLower(t.to) == addr && tx == t then 1 else 0)
  {
    var h := Hits(addr, tx);
    if tx != t {
      assert t !in h;
    } else {
      assert h == seq(Multiplicity(addr, t), _ => t);
    }
  }

  /**
   * Contents with multiplicities: a transaction occurs in what a block adds
   * to `addr` as often as it occurs in the block for each of its sides
   * (sender, recipient) that names `addr`.
   */
  lemma {:induction false} RelevantCount(addr: string, block: seq<Transaction>, t: Transaction)
    ensures multiset(Relevant(addr, block))[t]
         == (if ToLower(t.from) == addr then multiset(block)[t] else 0)
          + (if ToLower(t.to) == addr then multiset(block)[t] else 0)
  {
    if block != [] {
      var init, last := block[..|block| - 1], block[|block| - 1];
      assert block == init + [last];
      RelevantCount(addr, init, t);
      HitsCount(addr, last, t);
      assert multiset(Relevant(addr, block)) == multiset(Relevant(addr, init)) + multiset(Hits(addr, last));
    }
  }

  /** A transaction is retained for a subscribed address exactly when it touches it. */
  lemma RelevantMembership(addr: string, block: seq<Transaction>, t: Transaction)
    ensures t in Relevant(addr, block) <==> t in block && Touches(addr, t)
  {
    RelevantCount(addr, block, t);
  }

  /** A transfer from a subscribed address to itself lands in its history twice. */
  lemma SelfTransferRecordedTwice(m: Histories, addr: string, tx: Transaction)
    requires addr in m
    requires ToLower(tx.from) == addr && ToLower(tx.to) == addr
    ensures Commit(m, [tx])[addr] == m[addr] + [tx, tx]
  {
    CommitAt(m, [tx], addr);
    assert [tx][..0] == [];
  }

  /** Committing a block keeps histories well indexed. */
  lemma CommitKeepsWellIndexed(m: Histories, block: seq<Transaction>)
    requires WellIndexed(m)
    ensures WellIndexed(Commit(m, block))
  {
    var r := Commit(m, block);
    forall k, t | k in r && t in r[k] ensures Touches(k, t) {
      CommitAt(m, block, k);
      RelevantTouches(k, block);
      assert t in m[k] || t in Relevant(k, block);
    }
  }

  /** Subscribed addresses are read with any casing of the address. */
  lemma LookupIgnoresCase(m: Histories, a: string, b: string)
    requires EqualFold(a, b)
    ensures Lookup(m, a) == Lookup(m, b)
  {
    ToLowerIffEqualFold(a, b);
  }
}
