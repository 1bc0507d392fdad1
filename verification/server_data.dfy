/**
 * The shared status fetcher (src/services/serverDataManager.js): one cache and
 * one in-flight request slot for the whole process, a retry loop with
 * exponential back-off for rate-limit errors, and a list of subscribers told
 * of every successful fetch.
 */
module ServerData {
  import opened Wrappers
  import Seqs

  /** One entry of a status reply's player sample; `text` is how a nameless entry prints. */
  datatype Player = Named(nameClean: string) | Unnamed(text: string)

  datatype Players = Players(online: int, max: int, list: seq<Player>)

  /** What `statusJava` / `statusBedrock` resolve with. */
  datatype StatusData = StatusData(online: bool, players: Players, motd: string, version: string)

  /** `{ data, isOnline, playerList }`, the value every caller receives. */
  datatype Snapshot = Snapshot(data: StatusData, isOnline: bool, playerList: Players)

  /** The parts of the configuration object a fetch reads. */
  datatype ServerConfig = ServerConfig(ip: string, port: int, kind: string, isOnlineCheck: bool)

  /** What one probe of the server does: resolve with data, or reject with an error message. */
  datatype ProbeOutcome = Replied(data: StatusData) | Failed(message: string)

  datatype Cache = Cache(data: Option<StatusData>, isOnline: bool, playerList: Players, lastUpdated: int)

  /**
   * How `getServerData` answers at the moment it is called: from the cache, by
   * handing out the request already in flight, or by starting a new one.
   */
  datatype Call = Cached(snapshot: Snapshot) | Joined | Started

  datatype FetchResult = Fetched(snapshot: Snapshot) | Threw(message: string)

  /** One subscriber callback invocation; `raised` records that the callback threw (and was caught). */
  datatype Delivery = Delivery(subscriber: nat, snapshot: Snapshot, raised: bool)

  const DefaultCacheExpiry := 30000
  const MaxRetries := 3
  const BaseDelay := 1000
  const RateLimited := "Too Many Requests"
  const NoPlayers := Players(0, 0, [])
  const EmptyCache := Cache(None, false, NoPlayers, 0)

  /** With the online check on, a server that reports no player slots counts as offline. */
  function IsOnline(data: StatusData, isOnlineCheck: bool): (r: bool)
    ensures r ==> data.online
    ensures !isOnlineCheck ==> r == data.online
    ensures isOnlineCheck && data.players.max <= 0 ==> !r
  {
    if isOnlineCheck then data.online && data.players.max > 0 else data.online
  }

  function SnapshotOf(data: StatusData, isOnlineCheck: bool): Snapshot {
    var online := IsOnline(data, isOnlineCheck);
    Snapshot(data, online, if online then data.players else NoPlayers)
  }

  predicate Retryable(o: ProbeOutcome) {
    o.Failed? && o.message == RateLimited
  }

  /**
   * The attempt (counted from 0) that ends a fetch begun at attempt `k`: the
   * first whose outcome is not a rate-limit error, and never later than the
   * attempt after the last retry.
   */
  function StopAttempt(probe: nat -> ProbeOutcome, k: nat): (s: nat)
    requires k <= MaxRetries
    ensures k <= s <= MaxRetries
    ensures forall j :: k <= j < s ==> Retryable(probe(j))
    ensures s < MaxRetries ==> !Retryable(probe(s))
    decreases MaxRetries - k
  {
    if k == MaxRetries || !Retryable(probe(k)) then k else StopAttempt(probe, k + 1)
  }

  lemma {:induction false} StopAttemptIs(probe: nat -> ProbeOutcome, k: nat, s: nat)
    requires k <= s <= MaxRetries
    requires forall j :: k <= j < s ==> Retryable(probe(j))
    requires s == MaxRetries || !Retryable(probe(s))
    ensures StopAttempt(probe, k) == s
    decreases s - k
  {
    if k < s {
      StopAttemptIs(probe, k + 1, s);
    }
  }

  function Pow2(n: nat): (r: nat)
    ensures r >= 1
  {
    if n == 0 then 1 else 2 * Pow2(n - 1)
  }

  /** `baseDelay * Math.pow(2, retries)` after the retry counter was raised to `retry`. */
  function BackoffDelay(retry: nat): nat {
    BaseDelay * Pow2(retry)
  }

  /** The pauses taken before a fetch that stops at attempt `stop`. */
  function Waits(stop: nat): seq<nat> {
    seq(stop, i requires 0 <= i < stop => BackoffDelay(i + 1))
  }

  /** What a fetch resolves with or throws, given how each attempt's probe goes. */
  function FetchOutcome(probe: nat -> ProbeOutcome, isOnlineCheck: bool): FetchResult {
    match probe(StopAttempt(probe, 0))
    case Replied(data) => Fetched(SnapshotOf(data, isOnlineCheck))
    case Failed(message) => Threw(message)
  }

  /** At most four attempts are made, and only a rate-limit error leads to another. */
  lemma AttemptsBounded(probe: nat -> ProbeOutcome)
    ensures StopAttempt(probe, 0) + 1 <= MaxRetries + 1
    ensures forall j :: 0 <= j < StopAttempt(probe, 0) ==> Retryable(probe(j))
  {
  }

  /** Any error other than a rate-limit error on the first attempt is thrown at once. */
  lemma {:induction false} OtherErrorNotRetried(probe: nat -> ProbeOutcome, isOnlineCheck: bool)
    requires probe(0).Failed? && probe(0).message != RateLimited
    ensures StopAttempt(probe, 0) == 0
    ensures FetchOutcome(probe, isOnlineCheck) == Threw(probe(0).message)
    ensures Waits(0) == []
  {
    StopAttemptIs(probe, 0, 0);
  }

  /**
   * Four rate-limit errors in a row make the fetch throw after waiting 2, 4
   * and 8 seconds; the offline result written after the retry loop is never
   * produced.
   */
  lemma {:induction false} PersistentRateLimitThrows(probe: nat -> ProbeOutcome, isOnlineCheck: bool)
    requires forall j: nat :: j <= MaxRetries ==> Retryable(probe(j))
    ensures StopAttempt(probe, 0) == MaxRetries
    ensures FetchOutcome(probe, isOnlineCheck) == Threw(RateLimited)
    ensures Waits(StopAttempt(probe, 0)) == [2000, 4000, 8000]
  {
    StopAttemptIs(probe, 0, MaxRetries);
  }

  /** Three rate-limit errors and then a reply: the fourth attempt's data is the result. */
  lemma {:induction false} RecoversOnLastAttempt(probe: nat -> ProbeOutcome, isOnlineCheck: bool)
    requires forall j: nat :: j < MaxRetries ==> Retryable(probe(j))
    requires probe(MaxRetries).Replied?
    ensures FetchOutcome(probe, isOnlineCheck) == Fetched(SnapshotOf(probe(MaxRetries).data, isOnlineCheck))
  {
    StopAttemptIs(probe, 0, MaxRetries);
  }

  /** Each back-off pause is twice the previous one. */
  lemma BackoffDoubles(retry: nat)
    ensures BackoffDelay(retry + 1) == 2 * BackoffDelay(retry)
  {
  }

  /** `subscribers.filter(sub => sub !== callback)`. */
  function RemoveAll(s: seq<nat>, x: nat): (r: seq<nat>)
    ensures x !in r
    ensures forall y :: y in r ==> y in s
    decreases |s|
  {
    if s == [] then []
    else RemoveAll(s[..|s| - 1], x) + (if s[|s| - 1] == x then [] else [s[|s| - 1]])
  }

  /** Unsubscribing keeps every other callback in its original order ... */
  lemma {:induction false} RemoveAllIsSubsequence(s: seq<nat>, x: nat)
    ensures Seqs.Subsequence(RemoveAll(s, x), s)
    decreases |s|
  {
    if s != [] {
      var init := s[..|s| - 1];
      var r := RemoveAll(s, x);
      RemoveAllIsSubsequence(init, x);
      if s[|s| - 1] != x {
        assert r == RemoveAll(init, x) + [s[|s| - 1]];
        assert r[..|r| - 1] == RemoveAll(init, x);
        assert r != [] && r[|r| - 1] == s[|s| - 1] && Seqs.Subsequence(r[..|r| - 1], s[..|s| - 1]);
      } else {
        assert r == RemoveAll(init, x);
      }
    }
  }

  /** ... and with as many registrations as before. */
  lemma {:induction false} RemoveAllKeepsCounts(s: seq<nat>, x: nat, y: nat)
    requires y != x
    ensures multiset(RemoveAll(s, x))[y] == multiset(s)[y]
    decreases |s|
  {
    if s != [] {
      var init := s[..|s| - 1];
      RemoveAllKeepsCounts(init, x, y);
      assert s == init + [s[|s| - 1]];
    }
  }

  function Deliveries(subscribers: seq<nat>, snapshot: Snapshot, raises: nat -> bool): (d: seq<Delivery>)
    ensures |d| == |subscribers|
  {
    seq(|subscribers|, i requires 0 <= i < |subscribers| => Delivery(subscribers[i], snapshot, raises(subscribers[i])))
  }

  class ServerDataManager {
    var cache: Cache
    /** Whether `pendingRequest` holds a fetch. */
    var pending: bool
    var cacheExpiry: int
    /** Subscriber callbacks, by identity. */
    var subscribers: seq<nat>
    var requestCount: nat
    /** Every subscriber invocation so far, in order. */
    var delivered: seq<Delivery>

    constructor ()
      ensures cache == EmptyCache && !pending && cacheExpiry == DefaultCacheExpiry
      ensures subscribers == [] && requestCount == 0 && delivered == []
    {
      cache := EmptyCache;
      pending := false;
      cacheExpiry := DefaultCacheExpiry;
      subscribers := [];
      requestCount := 0;
      delivered := [];
    }

    /** The cache answers a call made at `now`. */
    predicate CacheFresh(forceRefresh: bool, now: int)
      reads this
    {
      !forceRefresh && cache.data.Some? && now - cache.lastUpdated < cacheExpiry
    }

    function CachedSnapshot(): Snapshot
      reads this
      requires cache.data.Some?
    {
      Snapshot(cache.data.value, cache.isOnline, cache.playerList)
    }

    /**
     * The synchronous part of `getServerData`. Nothing in it depends on which
     * server the caller asks about: a fresh cache, or a request already in
     * flight, answers every caller alike.
     */
    method Request(forceRefresh: bool, now: int) returns (call: Call)
      modifies this`pending
      ensures old(CacheFresh(forceRefresh, now)) ==> call == Cached(old(CachedSnapshot())) && pending == old(pending)
      ensures !old(CacheFresh(forceRefresh, now)) && old(pending) ==> call == Joined && pending
      ensures !old(CacheFresh(forceRefresh, now)) && !old(pending) ==> call == Started && pending
    {
      if !forceRefresh && cache.data.Some? && now - cache.lastUpdated < cacheExpiry {
        call := Cached(Snapshot(cache.data.value, cache.isOnline, cache.playerList));
        return;
      }
      if pending {
        call := Joined;
        return;
      }
      pending := true;
      call := Started;
    }

    /**
     * The started request runs to completion; every caller that received
     * `Started` or `Joined` gets `r`. The slot is cleared whether it resolved or threw.
     */
    method Settle(config: ServerConfig, probe: nat -> ProbeOutcome, raises: nat -> bool, now: int)
      returns (r: FetchResult, waits: seq<nat>)
      modifies this`cache, this`requestCount, this`delivered, this`pending
      ensures !pending
      ensures r == FetchOutcome(probe, config.isOnlineCheck)
      ensures waits == Waits(StopAttempt(probe, 0))
      ensures requestCount == old(requestCount) + StopAttempt(probe, 0) + 1
      ensures r.Fetched? ==> cache == Cache(Some(r.snapshot.data), r.snapshot.isOnline, r.snapshot.playerList, now)
      ensures r.Fetched? ==> delivered == old(delivered) + Deliveries(subscribers, r.snapshot, raises)
      ensures r.Threw? ==> cache == old(cache) && delivered == old(delivered)
    {
      r, waits := FetchServerData(config, probe, raises, now);
      pending := false;
    }

    /** `_fetchServerData`: the retry loop. */
    method FetchServerData(config: ServerConfig, probe: nat -> ProbeOutcome, raises: nat -> bool, now: int)
      returns (r: FetchResult, waits: seq<nat>)
      modifies this`cache, this`requestCount, this`delivered
      ensures r == FetchOutcome(probe, config.isOnlineCheck)
      ensures waits == Waits(StopAttempt(probe, 0))
      ensures requestCount == old(requestCount) + StopAttempt(probe, 0) + 1
      ensures r.Fetched? ==> cache == Cache(Some(r.snapshot.data), r.snapshot.isOnline, r.snapshot.playerList, now)
      ensures r.Fetched? ==> delivered == old(delivered) + Deliveries(subscribers, r.snapshot, raises)
      ensures r.Threw? ==> cache == old(cache) && delivered == old(delivered)
    {
      var retries := 0;
      waits := [];
      while retries <= MaxRetries
        invariant retries <= MaxRetries
        invariant forall j :: 0 <= j < retries ==> Retryable(probe(j))
        invariant waits == Waits(retries)
        invariant requestCount == old(requestCount) + retries
        invariant cache == old(cache) && delivered == old(delivered)
        decreases MaxRetries - retries
      {
        requestCount := requestCount + 1;
        var outcome := probe(retries);
        match outcome
        case Replied(data) =>
          StopAttemptIs(probe, 0, retries);
          var online := IsOnline(data, config.isOnlineCheck);
          cache := Cache(Some(data), online, if online then data.players else NoPlayers, now);
          NotifySubscribers(raises);
          r := Fetched(Snapshot(data, online, cache.playerList));
          return;
        case Failed(message) =>
          if message == RateLimited && retries < MaxRetries {
            retries := retries + 1;
            waits := waits + [BaseDelay * Pow2(retries)];
          } else {
            StopAttemptIs(probe, 0, retries);
            r := Threw(message);
            return;
          }
      }
      // The loop above returns or throws on every attempt; the offline result
      // that follows it in the source cannot be reached.
      assert false;
    }

    /** `_notifySubscribers`: every subscriber is called, a throwing one does not stop the rest. */
    method NotifySubscribers(raises: nat -> bool)
      requires cache.data.Some?
      modifies this`delivered
      ensures delivered == old(delivered) + Deliveries(subscribers, CachedSnapshot(), raises)
    {
      var snapshot := Snapshot(cache.data.value, cache.isOnline, cache.playerList);
      var i := 0;
      while i < |subscribers|
        invariant 0 <= i <= |subscribers|
        invariant delivered == old(delivered) + Deliveries(subscribers[..i], snapshot, raises)
      {
        delivered := delivered + [Delivery(subscribers[i], snapshot, raises(subscribers[i]))];
        i := i + 1;
        assert Deliveries(subscribers[..i], snapshot, raises)
          == Deliveries(subscribers[..i - 1], snapshot, raises) + [Delivery(subscribers[i - 1], snapshot, raises(subscribers[i - 1]))];
      }
      assert subscribers[..i] == subscribers;
    }

    method Subscribe(callback: nat)
      modifies this`subscribers
      ensures subscribers == old(subscribers) + [callback]
    {
      subscribers := subscribers + [callback];
    }

    /** The function `subscribe` returns: drops every registration of `callback`. */
    method Unsubscribe(callback: nat)
      modifies this`subscribers
      ensures subscribers == RemoveAll(old(subscribers), callback)
      ensures callback !in subscribers
    {
      subscribers := RemoveAll(subscribers, callback);
    }

    method SetCacheExpiry(milliseconds: int)
      modifies this`cacheExpiry
      ensures cacheExpiry == milliseconds
    {
      cacheExpiry := milliseconds;
    }

    /** After `clearCache` no call is answered from the cache until a fetch succeeds. */
    method ClearCache()
      modifies this`cache
      ensures cache == EmptyCache
      ensures forall force: bool, now: int :: !CacheFresh(force, now)
    {
      cache := EmptyCache;
    }

    /** Callers reset `pendingRequest` (and `currentRequestKey`, a property nothing reads) before a fresh fetch. */
    method DropPending()
      modifies this`pending
      ensures !pending
    {
      pending := false;
    }
  }

  /**
   * Two callers asking about different servers while one fetch is in flight
   * share its result, and a third caller asking about yet another server within
   * the cache window gets that same snapshot.
   */
  method SharedSlotScenario(first: ServerConfig, probe: nat -> ProbeOutcome, t0: int, t1: int)
    returns (firstCall: Call, secondCall: Call, result: FetchResult, laterCall: Call)
    requires t0 <= t1 < t0 + DefaultCacheExpiry
    ensures firstCall == Started && secondCall == Joined
    ensures result == FetchOutcome(probe, first.isOnlineCheck)
    ensures result.Fetched? ==> laterCall == Cached(result.snapshot)
    ensures result.Threw? ==> laterCall == Started
  {
    var manager := new ServerDataManager();
    firstCall := manager.Request(false, t0);
    secondCall := manager.Request(false, t0);
    var waits;
    result, waits := manager.Settle(first, probe, n => false, t0);
    laterCall := manager.Request(false, t1);
  }
}
