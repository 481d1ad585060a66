/**
 * The parser: a query facade over the store and the block-advancement loop.
 *
 * The chain node is an oracle. Its answers are given to `Start` as two
 * finite scripts, consumed in call order: `heads` answers the successive
 * requests for the latest block number, `fetches` the successive requests
 * for a block's transactions. The Go loop never
 * returns; here it returns as soon as it needs an answer that its script
 * no longer holds.
 */
module Parser {
  import opened Address
  import opened Ledger
  import opened Storage

  /** Answer to a request for the latest block number. */
  datatype HeadResult = HeadOk(height: int) | HeadFailed

  /** Answer to a request for the transactions of one block. */
  datatype FetchResult = Fetched(txs: seq<Transaction>) | FetchFailed

  /** How one run of the catch-up loop ended. */
  datatype Pass =
    | CaughtUp      // no longer behind `latestBlock`: the head is asked next
    | FetchError    // a fetch failed: back to the top of the loop, head not asked
    | OutOfAnswers  // the fetch script is exhausted

  /**
   * What the loop's `latestBlock` holds after a head request: the reported
   * height, or 0 when the request failed (the zero value of the named result).
   */
  function LatestValue(h: HeadResult): (r: int)
    ensures h.HeadOk? ==> r == h.height
    ensures h.HeadFailed? ==> r == 0
  {
    match h
    case HeadOk(n) => n
    case HeadFailed => 0
  }

  /** The greatest `latestBlock` the answers can produce, starting from its initial 0. */
  function HighestHead(hs: seq<HeadResult>): (r: int)
    ensures r >= 0
  {
    if hs == [] then 0
    else
      var prev := HighestHead(hs[..|hs| - 1]);
      var last := LatestValue(hs[|hs| - 1]);
      if last > prev then last else prev
  }

  /** No answer leaves `latestBlock` above the highest head. */
  lemma {:induction false} HighestHeadBounds(hs: seq<HeadResult>)
    ensures forall i :: 0 <= i < |hs| ==> LatestValue(hs[i]) <= HighestHead(hs)
  {
    if hs != [] {
      var init := hs[..|hs| - 1];
      HighestHeadBounds(init);
      assert forall i :: 0 <= i < |init| ==> hs[i] == init[i];
    }
  }

  /** The highest head is the initial 0 or the value of one of the answers. */
  lemma {:induction false} HighestHeadAttained(hs: seq<HeadResult>)
    ensures HighestHead(hs) == 0 || exists i :: 0 <= i < |hs| && LatestValue(hs[i]) == HighestHead(hs)
  {
    if hs != [] {
      var init := hs[..|hs| - 1];
      HighestHeadAttained(init);
      if HighestHead(hs) != 0 && HighestHead(hs) == HighestHead(init) {
        var i :| 0 <= i < |init| && LatestValue(init[i]) == HighestHead(init);
        assert hs[i] == init[i];
      }
    }
  }

  /** The value `latestBlock` holds after the answers `hs`: 0 before any, else the last one's. */
  function LastHead(hs: seq<HeadResult>): int
  {
    if hs == [] then 0 else LatestValue(hs[|hs| - 1])
  }

  /** The value `latestBlock` holds after some of the answers never exceeds the highest head of them all. */
  lemma LastHeadBelowHighest(hs: seq<HeadResult>, n: nat)
    requires n <= |hs|
    ensures LastHead(hs[..n]) <= HighestHead(hs)
  {
    HighestHeadBounds(hs);
    if n > 0 {
      assert hs[..n][n - 1] == hs[n - 1];
    }
  }

  /** One more head answer sets `latestBlock` to its value. */
  lemma HeadStep(hs: seq<HeadResult>, i: nat)
    requires i < |hs|
    ensures LastHead(hs[..i + 1]) == LatestValue(hs[i])
  {
  }

  /** The blocks obtained by the successful fetches, in order. */
  function Successes(fs: seq<FetchResult>): (r: seq<seq<Transaction>>)
    ensures |r| <= |fs|
  {
    if fs == [] then []
    else
      var prev := Successes(fs[..|fs| - 1]);
      match fs[|fs| - 1]
      case Fetched(b) => prev + [b]
      case FetchFailed => prev
  }

  /** A failed fetch adds no block; a successful one adds exactly its own. */
  lemma SuccessesStep(fs: seq<FetchResult>, i: nat)
    requires i < |fs|
    ensures fs[i].FetchFailed? ==> Successes(fs[..i + 1]) == Successes(fs[..i])
    ensures fs[i].Fetched? ==> Successes(fs[..i + 1]) == Successes(fs[..i]) + [fs[i].txs]
  {
    assert fs[..i + 1][..i] == fs[..i];
  }

  /**
   * The heights the loop asks the node for, given the fetch answers in order:
   * each request is for the block after the last one obtained.
   */
  function Requests(from: int, fs: seq<FetchResult>): (r: seq<int>)
    ensures |r| == |fs|
  {
    if fs == [] then []
    else
      var earlier := fs[..|fs| - 1];
      Requests(from, earlier) + [from + 1 + |Successes(earlier)|]
  }

  /** One more answer adds one request, for the block after those obtained so far. */
  lemma RequestsStep(from: int, fs: seq<FetchResult>, k: nat)
    requires k < |fs|
    ensures Requests(from, fs[..k + 1]) == Requests(from, fs[..k]) + [from + 1 + |Successes(fs[..k])|]
  {
    assert fs[..k + 1][..k] == fs[..k];
  }

  /**
   * Retry and progress: request `i` is for the block after the ones obtained
   * by the first `i` answers, so after a failure the same block is asked
   * again and after a success the next one.
   */
  lemma {:induction false} RequestsAt(from: int, fs: seq<FetchResult>, n: nat)
    requires n <= |fs|
    ensures forall i :: 0 <= i < n ==> Requests(from, fs[..n])[i] == from + 1 + |Successes(fs[..i])|
  {
    if n > 0 {
      RequestsAt(from, fs, n - 1);
      RequestsStep(from, fs, n - 1);
      var earlier := Requests(from, fs[..n - 1]);
      forall i | 0 <= i < n - 1 ensures Requests(from, fs[..n])[i] == from + 1 + |Successes(fs[..i])| {
        assert Requests(from, fs[..n])[i] == earlier[i];
      }
    }
  }

  /** Committing one more block after a run of blocks is committing the longer run. */
  lemma CommitAllStep(m: Histories, blocks: seq<seq<Transaction>>, b: seq<Transaction>)
    ensures CommitAll(m, blocks + [b]) == Commit(CommitAll(m, blocks), b)
  {
    assert (blocks + [b])[..|blocks|] == blocks;
  }

  /**
   * What the loop has done, against the store it started from (height
   * `initial`, histories `histories`), when it has made the requests `asked`
   * and saved the heights `commits`, and the store holds `height` and `now`:
   * the requests follow `Requests`, exactly the successful fetches have been
   * saved, at consecutive heights, and the histories hold exactly what those
   * blocks add.
   */
  predicate Progress(initial: int, histories: Histories, fetches: seq<FetchResult>,
                     asked: seq<int>, commits: seq<int>, height: int, now: Histories)
  {
    && |asked| <= |fetches|
    && height == initial + |commits|
    && asked == Requests(initial, fetches[..|asked|])
    && |commits| == |Successes(fetches[..|asked|])|
    && (forall i :: 0 <= i < |commits| ==> commits[i] == initial + 1 + i)
    && now == CommitAll(histories, Successes(fetches[..|asked|]))
  }

  /** The last fetch answer consumed by the requests `asked` was a failure. */
  predicate LastFailed(fetches: seq<FetchResult>, asked: seq<int>)
  {
    0 < |asked| <= |fetches| && fetches[|asked| - 1].FetchFailed?
  }

  /**
   * What a progress record says in the loop's own terms: request `i` is for
   * the block after the ones obtained by the first `i` answers, exactly the
   * successful fetches are saved, at consecutive heights from `initial + 1`,
   * and the histories hold what those blocks add.
   */
  lemma ProgressMeans(initial: int, histories: Histories, fetches: seq<FetchResult>,
                      asked: seq<int>, commits: seq<int>, height: int, now: Histories)
    requires Progress(initial, histories, fetches, asked, commits, height, now)
    ensures |asked| <= |fetches|
    ensures forall i :: 0 <= i < |asked| ==> asked[i] == initial + 1 + |Successes(fetches[..i])|
    ensures |commits| == |Successes(fetches[..|asked|])|
    ensures forall i :: 0 <= i < |commits| ==> commits[i] == initial + 1 + i
    ensures height == initial + |commits|
    ensures now == CommitAll(histories, Successes(fetches[..|asked|]))
  {
    RequestsAt(initial, fetches, |asked|);
  }

  /** A failed fetch of block `height + 1` is recorded as a request and changes nothing else. */
  lemma FailedFetchKeepsProgress(initial: int, histories: Histories, fetches: seq<FetchResult>,
                                 asked: seq<int>, commits: seq<int>, height: int, now: Histories)
    requires Progress(initial, histories, fetches, asked, commits, height, now)
    requires |asked| < |fetches| && fetches[|asked|].FetchFailed?
    ensures Progress(initial, histories, fetches, asked + [height + 1], commits, height, now)
  {
    var k := |asked|;
    RequestsStep(initial, fetches, k);
    SuccessesStep(fetches, k);
    assert (asked + [height + 1])[..k] == asked;
  }

  /**
   * A successful fetch of block `height + 1` is saved at exactly that
   * height: one more commit, the height up by one, the block's transactions
   * added to the histories.
   */
  lemma SavedFetchKeepsProgress(initial: int, histories: Histories, fetches: seq<FetchResult>,
                                asked: seq<int>, commits: seq<int>, height: int, now: Histories)
    requires Progress(initial, histories, fetches, asked, commits, height, now)
    requires |asked| < |fetches| && fetches[|asked|].Fetched?
    ensures Progress(initial, histories, fetches, asked + [height + 1], commits + [height + 1],
                     height + 1, Commit(now, fetches[|asked|].txs))
  {
    var k := |asked|;
    var b := fetches[k].txs;
    RequestsStep(initial, fetches, k);
    SuccessesStep(fetches, k);
    CommitAllStep(histories, Successes(fetches[..k]), b);
    assert Successes(fetches[..k + 1]) == Successes(fetches[..k]) + [b];
  }

  /**
   * When the head answers were used, relative to the saves. `heightAt[j]` is
   * the height at the moment head answer `j` was asked for, and
   * `headsBefore[i]` the number of head answers obtained before commit `i`
   * was fetched. A head is asked for only once the height has reached the
   * `latestBlock` in force, every commit lies at or below the `latestBlock`
   * in force when it was fetched, and the two traces describe one
   * interleaving: head `j` came before commit `i` exactly when the height
   * was then still below that commit.
   */
  ghost predicate Schedule(heads: seq<HeadResult>, initial: int, commits: seq<int>,
                           headsBefore: seq<nat>, heightAt: seq<int>, height: int)
  {
    && |headsBefore| == |commits|
    && |heightAt| <= |heads|
    && (forall i :: 0 <= i < |commits| ==>
          headsBefore[i] <= |heightAt| && commits[i] <= LastHead(heads[..headsBefore[i]]))
    && (forall j :: 0 <= j < |heightAt| ==> LastHead(heads[..j]) <= heightAt[j] <= height)
    && (forall j, k :: 0 <= j <= k < |heightAt| ==> initial <= heightAt[j] <= heightAt[k])
    && (forall i, j :: 0 <= i < |commits| && 0 <= j < |heightAt| ==>
          (j < headsBefore[i] <==> heightAt[j] < commits[i]))
  }

  /**
   * A pass of the catch-up loop that moves the height from `height` to
   * `height'` saves its blocks below the current `latestBlock`, the value
   * of the head answers used so far; it keeps the schedule.
   */
  lemma SavesKeepSchedule(heads: seq<HeadResult>, initial: int, commits: seq<int>,
                          headsBefore: seq<nat>, heightAt: seq<int>, height: int,
                          commits': seq<int>, height': int)
    requires Schedule(heads, initial, commits, headsBefore, heightAt, height)
    requires height == initial + |commits| && height' == initial + |commits'|
    requires |commits| <= |commits'|
    requires forall i :: 0 <= i < |commits'| ==> commits'[i] == initial + 1 + i
    requires forall i :: 0 <= i < |commits| ==> commits[i] == initial + 1 + i
    requires height' == height || height' <= LastHead(heads[..|heightAt|])
    ensures Schedule(heads, initial, commits',
                     headsBefore + seq(|commits'| - |commits|, _ => |heightAt|), heightAt, height')
  {
    var n := |heightAt|;
    var hb := headsBefore + seq(|commits'| - |commits|, _ => n);
    forall i | 0 <= i < |commits'|
      ensures hb[i] <= n && commits'[i] <= LastHead(heads[..hb[i]])
    {
      if i < |commits| {
        assert commits'[i] == commits[i];
      }
    }
    forall i, j | 0 <= i < |commits'| && 0 <= j < n
      ensures j < hb[i] <==> heightAt[j] < commits'[i]
    {
      if i < |commits| {
        assert commits'[i] == commits[i];
      }
    }
  }

  /** Asking for the head once caught up with `latestBlock` keeps the schedule. */
  lemma HeadKeepsSchedule(heads: seq<HeadResult>, initial: int, commits: seq<int>,
                          headsBefore: seq<nat>, heightAt: seq<int>, height: int)
    requires Schedule(heads, initial, commits, headsBefore, heightAt, height)
    requires height == initial + |commits|
    requires forall i :: 0 <= i < |commits| ==> commits[i] == initial + 1 + i
    requires |heightAt| < |heads| && LastHead(heads[..|heightAt|]) <= height
    ensures Schedule(heads, initial, commits, headsBefore, heightAt + [height], height)
  {
  }

  /** Hence no block is saved above the highest head answered. */
  lemma ScheduleBelowHighestHead(heads: seq<HeadResult>, initial: int, commits: seq<int>,
                                 headsBefore: seq<nat>, heightAt: seq<int>, height: int)
    requires Schedule(heads, initial, commits, headsBefore, heightAt, height)
    ensures forall i :: 0 <= i < |commits| ==> commits[i] <= HighestHead(heads[..|heightAt|])
  {
    var used := heads[..|heightAt|];
    forall i | 0 <= i < |commits| ensures commits[i] <= HighestHead(used) {
      assert used[..headsBefore[i]] == heads[..headsBefore[i]];
      LastHeadBelowHighest(used, headsBefore[i]);
    }
  }

  class EthParser {
    /** Endpoint of the chain node; only the oracle uses it. */
    const url: string
    /** The store this parser feeds and reads. */
    const storage: MemStorage

    ghost predicate Valid()
      reads storage
    {
      storage.Valid()
    }

    /** A parser over a fresh, empty store. */
    constructor (url: string)
      ensures this.url == url
      ensures fresh(storage) && Valid()
      ensures storage.currentBlock == 0 && storage.txs == map[]
    {
      this.url := url;
      storage := new MemStorage();
    }

    /** The last parsed block. */
    method GetCurrentBlock() returns (h: int)
      ensures h == storage.currentBlock
    {
      h := storage.GetCurrentBlock();
    }

    /** Adds an address to the observed set; false when it was already observed. */
    method Subscribe(address: string) returns (added: bool)
      requires Valid()
      modifies storage
      ensures Valid()
      ensures added <==> ToLower(address) !in old(storage.txs)
      ensures added ==> storage.txs == old(storage.txs)[ToLower(address) := []]
      ensures !added ==> storage.txs == old(storage.txs)
      ensures storage.currentBlock == old(storage.currentBlock)
    {
      added := storage.AddTargetAddress(address);
    }

    /** Inbound and outbound transactions of an address, in any casing. */
    method GetTransactions(address: string) returns (r: seq<Transaction>)
      requires Valid()
      ensures r == Lookup(storage.txs, address)
      ensures forall t :: t in r ==> Touches(ToLower(address), t)
    {
      r := storage.GetTransactions(address);
    }

    /**
     * The inner loop of `Start`: while `currentBlock < latest`, fetch block
     * `currentBlock + 1`; on success save it at that height and move on, on
     * failure leave the loop without advancing.
     */
    method CatchUp(fetches: seq<FetchResult>, ghost initial: int, ghost histories: Histories,
                   asked0: seq<int>, commits0: seq<int>, current0: int, latest: int)
        returns (pass: Pass, asked: seq<int>, commits: seq<int>, currentBlock: int)
      requires Valid()
      requires Progress(initial, histories, fetches, asked0, commits0, current0, storage.txs)
      requires storage.currentBlock == current0
      modifies storage
      ensures Valid()
      ensures Progress(initial, histories, fetches, asked, commits, currentBlock, storage.txs)
      ensures storage.currentBlock == currentBlock
      ensures |asked0| <= |asked| && |commits0| <= |commits|
      // blocks are saved only up to `latest`
      ensures currentBlock == current0 || currentBlock <= latest
      // every answer consumed was a success and was saved, except the last one of a failed pass
      ensures |commits| - |commits0| == |asked| - |asked0| - (if pass == FetchError then 1 else 0)
      ensures pass == CaughtUp ==> currentBlock >= latest
      ensures pass == FetchError ==> |asked0| < |asked| && LastFailed(fetches, asked) && currentBlock < latest
      ensures pass == OutOfAnswers ==> |asked| == |fetches| && currentBlock < latest
      // only a failed pass ends on a failed answer
      ensures pass != FetchError && |asked0| < |asked| ==> !LastFailed(fetches, asked)
      ensures |asked| == |asked0| ==> currentBlock == current0
    {
      asked, commits, currentBlock := asked0, commits0, current0;
      while currentBlock < latest
        invariant Valid()
        invariant Progress(initial, histories, fetches, asked, commits, currentBlock, storage.txs)
        invariant storage.currentBlock == currentBlock
        invariant |asked0| <= |asked| && |commits0| <= |commits|
        invariant currentBlock == current0 || currentBlock <= latest
        invariant |commits| - |commits0| == |asked| - |asked0|
        invariant |asked0| < |asked| ==> !LastFailed(fetches, asked)
        invariant |asked| == |asked0| ==> currentBlock == current0
        decreases latest - currentBlock
      {
        if |asked| == |fetches| {
          return OutOfAnswers, asked, commits, currentBlock;
        }
        var answer := fetches[|asked|];
        if answer.FetchFailed? {
          FailedFetchKeepsProgress(initial, histories, fetches, asked, commits, currentBlock, storage.txs);
          asked := asked + [currentBlock + 1];
          return FetchError, asked, commits, currentBlock;
        }
        SavedFetchKeepsProgress(initial, histories, fetches, asked, commits, currentBlock, storage.txs);
        asked := asked + [currentBlock + 1];
        storage.SaveTransactions(currentBlock + 1, answer.txs);
        commits := commits + [currentBlock + 1];
        currentBlock := currentBlock + 1;
      }
      pass := CaughtUp;
    }

    /**
     * The block-advancement loop. While behind the latest known block it
     * fetches the next block and saves it at the next height; a failed fetch
     * goes back to the top of the loop (after a back-off) and asks for the
     * same block again against the same `latestBlock`; once caught up it asks
     * for the latest block number.
     *
     * Results: `asked` lists the heights requested, `commits` the heights
     * saved, `headsUsed` how many head answers were consumed and `latest`
     * the final value of `latestBlock`. The ghost results record the
     * interleaving: `heightAt[j]` is the height when head answer `j` was
     * asked for, `headsBefore[i]` the number of head answers obtained
     * before commit `i` was fetched.
     */
    method Start(heads: seq<HeadResult>, fetches: seq<FetchResult>)
        returns (asked: seq<int>, commits: seq<int>, headsUsed: nat, latest: int,
                 ghost headsBefore: seq<nat>, ghost heightAt: seq<int>)
      requires Valid()
      modifies storage
      ensures Valid()
      ensures headsUsed <= |heads|
      // requests, saves, height and histories follow `Progress` (spelled out by `ProgressMeans`):
      // each request is for the block after the last one saved, so a failure retries it, and
      // exactly the successful fetches are saved, at consecutive heights
      ensures Progress(old(storage.currentBlock), old(storage.txs), fetches, asked, commits,
                       storage.currentBlock, storage.txs)
      // `latestBlock` is the last head answer, and the loop stopped for want of an answer
      ensures latest == LastHead(heads[..headsUsed])
      ensures || (|asked| == |fetches| && storage.currentBlock < latest)
              || (headsUsed == |heads| && storage.currentBlock >= latest)
      // a failed fetch is always followed by another fetch, so the last answer consumed is a
      // failure only when the script ran out while the loop was behind `latestBlock`
      ensures LastFailed(fetches, asked) ==> |asked| == |fetches| && storage.currentBlock < latest
      // the interleaving of head requests and saves follows `Schedule`: each block is
      // saved at or below the `latestBlock` in force when it was fetched, and the head
      // is asked for only once the height has reached the `latestBlock` in force
      ensures |heightAt| == headsUsed
      ensures Schedule(heads, old(storage.currentBlock), commits, headsBefore, heightAt, storage.currentBlock)
    {
      ghost var initial := storage.currentBlock;
      ghost var histories := storage.txs;
      ghost var failed := false;  // the last request failed: the next round starts with a back-off
      var currentBlock := storage.GetCurrentBlock();
      asked, commits, headsUsed, latest := [], [], 0, 0;
      headsBefore, heightAt := [], [];
      while true
        invariant Valid()
        invariant Progress(initial, histories, fetches, asked, commits, currentBlock, storage.txs)
        invariant storage.currentBlock == currentBlock
        invariant headsUsed <= |heads|
        invariant latest == LastHead(heads[..headsUsed])
        invariant |heightAt| == headsUsed
        invariant Schedule(heads, initial, commits, headsBefore, heightAt, currentBlock)
        invariant LastFailed(fetches, asked) ==> currentBlock < latest
        decreases (|heads| - headsUsed) + (|fetches| - |asked|)
      {
        // when `failed` holds, the Go program sleeps one second here
        var pass;
        ghost var saved, height := commits, currentBlock;
        pass, asked, commits, currentBlock :=
          CatchUp(fetches, initial, histories, asked, commits, currentBlock, latest);
        SavesKeepSchedule(heads, initial, saved, headsBefore, heightAt, height, commits, currentBlock);
        headsBefore := headsBefore + seq(|commits| - |saved|, _ => headsUsed);
        if pass == OutOfAnswers {
          break;
        }
        if pass == FetchError {
          failed := true;
          continue;
        }
        // caught up, so the last answer consumed was a success
        assert !LastFailed(fetches, asked);
        if headsUsed == |heads| {
          break;  // the script holds no answer for this head request
        }
        HeadKeepsSchedule(heads, initial, commits, headsBefore, heightAt, currentBlock);
        heightAt := heightAt + [currentBlock];
        HeadStep(heads, headsUsed);
        latest := LatestValue(heads[headsUsed]);
        failed := heads[headsUsed].HeadFailed?;
        headsUsed := headsUsed + 1;
      }
    }
  }
}
