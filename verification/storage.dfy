/**
 * The in-memory transaction store.
 *
 * It holds the height of the last committed block and, for every subscribed
 * address in canonical form, the ordered list of transactions that address
 * sent or received. Each operation runs under the store's reader/writer lock
 * in the Go program; here each one is a single atomic step.
 */
module Storage {
  import opened Address
  import opened Ledger

  class MemStorage {
    /** Height of the last block whose transactions were saved. */
    var currentBlock: int
    /** Subscribed addresses (canonical form) and their histories. */
    var txs: Histories

    /** Keys are canonical and every history entry names its key as sender or recipient. */
    ghost predicate Valid()
      reads this
    {
      WellIndexed(txs)
    }

    /** A fresh store: height 0 and no subscription. */
    constructor ()
      ensures Valid()
      ensures currentBlock == 0 && txs == map[]
    {
      currentBlock := 0;
      txs := map[];
    }

    /** The last committed height; reads only. */
    method GetCurrentBlock() returns (h: int)
      ensures h == currentBlock
    {
      h := currentBlock;
    }

    /**
     * Subscribes `address`. An address absent in canonical form is added
     * with an empty history and the answer is true; a present one is left
     * alone (its history is not reset) and the answer is false.
     */
    method AddTargetAddress(address: string) returns (added: bool)
      requires Valid()
      modifies this
      ensures Valid()
      ensures added <==> ToLower(address) !in old(txs)
      ensures added ==> txs == old(txs)[ToLower(address) := []]
      ensures !added ==> txs == old(txs)
      ensures currentBlock == old(currentBlock)
    {
      var key := ToLower(address);
      if key !in txs {
        ToLowerIdempotent(address);
        ToLowerNormalized(address);
        txs := txs[ToLower(key) := []];
        added := true;
      } else {
        added := false;
      }
    }

    /**
     * Saves one block: each transaction is appended to its sender's history
     * and then to its recipient's, each only if that address is already
     * subscribed; then the height becomes `block`, whatever the batch holds.
     */
    method SaveTransactions(block: int, batch: seq<Transaction>)
      requires Valid()
      modifies this
      ensures Valid()
      ensures currentBlock == block
      ensures txs == Commit(old(txs), batch)
      ensures txs.Keys == old(txs).Keys
      ensures forall k :: k in old(txs) ==> txs[k] == old(txs)[k] + Relevant(k, batch)
      ensures forall k :: k in old(txs) ==> old(txs)[k] <= txs[k]
    {
      var i := 0;
      while i < |batch|
        invariant 0 <= i <= |batch|
        invariant txs == Commit(old(txs), batch[..i])
      {
        var tx := batch[i];
        ghost var before := txs;
        var from, to := ToLower(tx.from), ToLower(tx.to);
        if from in txs {
          txs := txs[from := txs[from] + [tx]];
        }
        assert txs == AppendIfPresent(before, from, tx);
        ghost var middle := txs;
        if to in txs {
          txs := txs[to := txs[to] + [tx]];
        }
        assert txs == AppendIfPresent(middle, to, tx);
        assert txs == CommitTx(before, tx);
        CommitStep(old(txs), batch, i);
        assert txs == Commit(old(txs), batch[..i + 1]);
        i := i + 1;
      }
      assert batch[..i] == batch;
      forall k | k in old(txs) ensures txs[k] == old(txs)[k] + Relevant(k, batch) {
        CommitAt(old(txs), batch, k);
      }
      CommitKeepsWellIndexed(old(txs), batch);
      currentBlock := block;
    }

    /**
     * The history of `address`, read case-insensitively: empty when the
     * address was never subscribed, and holding only transactions that the
     * address sent or received.
     */
    method GetTransactions(address: string) returns (r: seq<Transaction>)
      requires Valid()
      ensures r == Lookup(txs, address)
      ensures forall t :: t in r ==> Touches(ToLower(address), t)
    {
      r := if ToLower(address) in txs then txs[ToLower(address)] else [];
    }
  }
}
