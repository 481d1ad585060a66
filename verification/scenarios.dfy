/**
 * Client scenarios: each method drives the parser through the operations a
 * caller would use and states the outcome, which follows from the contracts
 * of those operations alone.
 */
module Scenarios {
  import opened Address
  import opened Ledger
  import opened Storage
  import opened Parser

  /** Subscribing is case-insensitive: "0xABC" then "0xabc" gives true, then false. */
  method SubscribeIgnoresCase() returns (first: bool, second: bool)
    ensures first && !second
  {
    var p := new EthParser("https://cloudflare-eth.com");
    first := p.Subscribe("0xABC");
    ToLowerIffEqualFold("0xABC", "0xabc");
    second := p.Subscribe("0xabc");
  }

  /** A transfer from 0xAAA to 0xBBB, in block 1 of the scenarios below. */
  const transfer := Transaction("0x01", "0xAAA", "0xBBB", "0x10", map[])

  /** The canonical forms of the two addresses, and what block 1 adds to 0xaaa. */
  lemma TransferFacts()
    ensures ToLower("0xAAA") == "0xaaa" && ToLower("0xaaa") == "0xaaa"
    ensures ToLower("0xBBB") == "0xbbb" && ToLower("0xbbb") == "0xbbb"
    ensures Relevant("0xaaa", [transfer]) == [transfer]
  {
    assert [transfer][..0] == [];
  }

  /**
   * Subscribe 0xAAA, save block 1 with one transfer from 0xAAA to 0xBBB:
   * 0xaaa reads that one transfer, the unsubscribed 0xbbb reads nothing,
   * and the parser is at block 1.
   */
  method EndToEnd() returns (height: int, ofSender: seq<Transaction>, ofRecipient: seq<Transaction>)
    ensures height == 1
    ensures |ofSender| == 1 && ofSender[0].hash == "0x01"
    ensures ofRecipient == []
  {
    TransferFacts();
    var p := new EthParser("https://cloudflare-eth.com");
    var _ := p.Subscribe("0xAAA");
    p.storage.SaveTransactions(1, [transfer]);
    ofSender := p.GetTransactions("0xaaa");
    ofRecipient := p.GetTransactions("0xbbb");
    height := p.GetCurrentBlock();
  }

  /**
   * No backfill: 0xBBB received a transfer in block 1 before it was
   * subscribed; subscribed afterwards, its history starts empty.
   */
  method LateSubscription() returns (first: bool, ofLateSubscriber: seq<Transaction>)
    ensures first
    ensures ofLateSubscriber == []
  {
    TransferFacts();
    var p := new EthParser("https://cloudflare-eth.com");
    var _ := p.Subscribe("0xAAA");
    p.storage.SaveTransactions(1, [transfer]);
    first := p.Subscribe("0xBBB");
    ofLateSubscriber := p.GetTransactions("0xBBB");
  }

  /** The node's answers in the resumption scenario: block 6 fails twice, then arrives empty. */
  const retries := [FetchFailed, FetchFailed, Fetched([])]
  const head6 := [HeadOk(6)]

  /** The blocks obtained after each prefix of `retries`, and `latestBlock` after each prefix of `head6`. */
  lemma RetriesFacts()
    ensures Successes(retries[..0]) == [] && Successes(retries[..1]) == []
    ensures Successes(retries[..2]) == [] && Successes(retries[..3]) == [[]]
    ensures LastHead(head6[..0]) == 0 && LastHead(head6[..1]) == 6
  {
    SuccessesStep(retries, 0);
    SuccessesStep(retries, 1);
    SuccessesStep(retries, 2);
    assert head6[..1] == head6;
  }

  /**
   * Resumption: at height 5 with the node reporting head 6, the fetch of
   * block 6 fails twice and then succeeds. Block 6 is asked for three times
   * and saved exactly once; block 7 is never asked for.
   */
  method Resumption() returns (asked: seq<int>, commits: seq<int>, height: int)
    ensures asked == [6, 6, 6]
    ensures commits == [6]
    ensures height == 6
  {
    RetriesFacts();
    var p := new EthParser("https://cloudflare-eth.com");
    p.storage.SaveTransactions(5, []);
    var headsUsed, latest;
    ghost var headsBefore, heightAt;
    asked, commits, headsUsed, latest, headsBefore, heightAt := p.Start(head6, retries);
    ProgressMeans(5, map[], retries, asked, commits, p.storage.currentBlock, p.storage.txs);
    // having caught up with head 6 needs the success, the third answer
    assert |asked| == 3;
    height := p.GetCurrentBlock();
  }

  /** Block 1 arrives, block 2 fails once and then arrives; the node reports head 10, then fails. */
  const flaky := [Fetched([]), FetchFailed, Fetched([])]
  const headThenFailure := [HeadOk(10), HeadFailed]

  /** The blocks obtained after each prefix of `flaky`, and `latestBlock` after each prefix of `headThenFailure`. */
  lemma FlakyFacts()
    ensures Successes(flaky[..0]) == [] && Successes(flaky[..1]) == [[]]
    ensures Successes(flaky[..2]) == [[]] && Successes(flaky[..3]) == [[], []]
    ensures LastHead(headThenFailure[..0]) == 0 && LastHead(headThenFailure[..1]) == 10
  {
    SuccessesStep(flaky, 0);
    SuccessesStep(flaky, 1);
    SuccessesStep(flaky, 2);
  }

  /**
   * A failed fetch is retried against the same `latestBlock`: from height 0
   * with head 10, block 2 is asked for again after its failure, before the
   * head is asked for a second time, so blocks 1 and 2 are both saved.
   */
  method RetryAgainstSameHead() returns (asked: seq<int>, commits: seq<int>, height: int)
    ensures asked == [1, 2, 2]
    ensures commits == [1, 2]
    ensures height == 2
  {
    FlakyFacts();
    var p := new EthParser("https://cloudflare-eth.com");
    var headsUsed, latest;
    ghost var headsBefore, heightAt;
    asked, commits, headsUsed, latest, headsBefore, heightAt := p.Start(headThenFailure, flaky);
    ProgressMeans(0, map[], flaky, asked, commits, p.storage.currentBlock, p.storage.txs);
    // a second head request needs height 10 first, which two blocks cannot reach
    assert |commits| <= 2;
    assert headsUsed == 1;
    assert |asked| == 3;
    height := p.GetCurrentBlock();
  }

  const savedThenFailed := [Fetched([]), FetchFailed]
  const headOne := [HeadOk(1)]

  /** The blocks obtained after each prefix of `savedThenFailed`, and `latestBlock` after `headOne`. */
  lemma SavedThenFailedFacts()
    ensures Successes(savedThenFailed[..0]) == [] && Successes(savedThenFailed[..1]) == [[]]
    ensures Successes(savedThenFailed[..2]) == [[]]
    ensures LastHead(headOne[..0]) == 0 && LastHead(headOne[..1]) == 1
  {
    SuccessesStep(savedThenFailed, 0);
    SuccessesStep(savedThenFailed, 1);
  }

  /**
   * No block is fetched past `latestBlock`: with head 1, block 1 is saved
   * and the loop is caught up, so the failure scripted as the second fetch
   * answer is never consumed.
   */
  method NoFetchPastHead() returns (asked: seq<int>, commits: seq<int>, height: int)
    ensures asked == [1]
    ensures commits == [1]
    ensures height == 1
  {
    SavedThenFailedFacts();
    var p := new EthParser("https://cloudflare-eth.com");
    var headsUsed, latest;
    ghost var headsBefore, heightAt;
    asked, commits, headsUsed, latest, headsBefore, heightAt := p.Start(headOne, savedThenFailed);
    ProgressMeans(0, map[], savedThenFailed, asked, commits, p.storage.currentBlock, p.storage.txs);
    // a request for block 2 would have to be the failure, which needs the height below 1
    assert |asked| == 1;
    height := p.GetCurrentBlock();
  }
}
