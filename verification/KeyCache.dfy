/**
 The cache of plaintext keys in front of the key service. Expiry, lazy removal and sweeping never
 change what is live, and an unwrapped key is the key service's answer exactly when requests that
 share a cache key have the same answer.
 */
module KeyCache {
  import opened Sequences

  type Key = seq<int>

  datatype CacheEntry = CacheEntry(key: Key, expiresAt: nat)

  type Entries = map<string, CacheEntry>

  /** The keys that can still be had at some time. */
  function Live(cache: Entries, now: nat): map<string, Key> {
    map id | id in cache && now < cache[id].expiresAt :: cache[id].key
  }

  class DekCache {
    var cache: Entries
    const defaultTtl: nat

    constructor (defaultTtl: nat)
      ensures cache == map[] && this.defaultTtl == defaultTtl
    {
      cache := map[];
      this.defaultTtl := defaultTtl;
    }

    method Insert(id: string, rawKey: Key, now: nat)
      modifies this`cache
      ensures cache == old(cache)[id := CacheEntry(rawKey, now + defaultTtl)]
    {
      cache := cache[id := CacheEntry(rawKey, now + defaultTtl)];
    }

    /** An expired entry is removed, which nobody can see from then on. */
    method Get(id: string, now: nat) returns (key: Option<Key>)
      modifies this`cache
      ensures key == if id in Live(old(cache), now) then Some(Live(old(cache), now)[id]) else None
      ensures cache == if key.Some? then old(cache) else old(cache) - {id}
      ensures forall later :: later >= now ==> Live(cache, later) == Live(old(cache), later)
    {
      var expired := false;
      if id in cache {
        if now < cache[id].expiresAt {
          return Some(cache[id].key);
        }
        expired := true;
      }
      if expired {
        Remove(id);
      }
      return None;
    }

    method Remove(id: string)
      modifies this`cache
      ensures cache == old(cache) - {id}
    {
      cache := cache - {id};
    }

    method Sweep(now: nat)
      modifies this`cache
      ensures cache == Swept(old(cache), now)
      ensures forall later :: later >= now ==> Live(cache, later) == Live(old(cache), later)
    {
      cache := map id | id in cache && now < cache[id].expiresAt :: cache[id];
    }
  }

  function Swept(cache: Entries, now: nat): Entries {
    map id | id in cache && now < cache[id].expiresAt :: cache[id]
  }

  /** When a removal meets an entry that was renewed in between, the only effect is a miss. */
  lemma RemovalOnlyMisses(cache: Entries, id: string, now: nat)
    ensures Live(cache - {id}, now) == Live(cache, now) - {id}
  {
  }

  // ---------------------------------------------------------------- unwrapping keys

  datatype CryptoError = KmsFailed(message: string) | DecryptionFailed

  type KmsContext = Option<map<string, string>>

  datatype Request = Request(ciphertext: string, context: KmsContext, user: Option<string>)

  /** The digest, the base64 decoder and the key service. */
  datatype Services = Services(
    hash: string -> string,
    decode: string -> Option<seq<int>>,
    kms: (seq<int>, KmsContext) -> Result<Key, CryptoError>)

  /** What the cache key is the digest of: no separator, and without the key service's context. */
  function Token(r: Request): string {
    if r.user.Some? then r.ciphertext + r.user.value else r.ciphertext
  }

  /** What the key service would say. */
  function Answer(sv: Services, r: Request): Result<Key, CryptoError> {
    match sv.decode(r.ciphertext)
    case None => Err(DecryptionFailed)
    case Some(bytes) => sv.kms(bytes, r.context)
  }

  function Unwrap(sv: Services, cache: Entries, r: Request, now: nat): Result<Key, CryptoError> {
    var id := sv.hash(Token(r));
    if id in Live(cache, now) then Ok(Live(cache, now)[id]) else Answer(sv, r)
  }

  function AfterUnwrap(sv: Services, cache: Entries, ttl: nat, r: Request, now: nat, later: nat): Entries {
    var id := sv.hash(Token(r));
    if id in Live(cache, now) then cache
    else if Answer(sv, r).Ok? then cache[id := CacheEntry(Answer(sv, r).value, later + ttl)]
    else cache - {id}
  }

  class CryptoManager {
    const dekCache: DekCache
    const services: Services

    constructor (dekCache: DekCache, services: Services)
      ensures this.dekCache == dekCache && this.services == services
    {
      this.dekCache := dekCache;
      this.services := services;
    }

    method UnwrapKey(r: Request, now: nat, later: nat) returns (key: Result<Key, CryptoError>)
      modifies dekCache
      ensures key == Unwrap(services, old(dekCache.cache), r, now)
      ensures services.hash(Token(r)) !in Live(old(dekCache.cache), now) && services.decode(r.ciphertext).Some? ==>
                key == services.kms(services.decode(r.ciphertext).value, r.context)
      ensures dekCache.cache == AfterUnwrap(services, old(dekCache.cache), dekCache.defaultTtl, r, now, later)
    {
      var hash := services.hash(if r.user.Some? then r.ciphertext + r.user.value else r.ciphertext);
      var cached := dekCache.Get(hash, now);
      if cached.Some? {
        return Ok(cached.value);
      }
      var bytes := services.decode(r.ciphertext);
      if bytes.None? {
        return Err(DecryptionFailed);
      }
      var newKey := services.kms(bytes.value, r.context);
      if newKey.Err? {
        return newKey;
      }
      dekCache.Insert(hash, newKey.value, later);
      return newKey;
    }
  }

  // ---------------------------------------------------------------- coherence

  /**
   The atomic steps of any number of concurrent calls: a look-up, the insertion of an answer, the
   removal of an entry, a sweep. Each call is a look-up, and on a miss perhaps a removal and an
   insertion, with steps of other calls in between.
   */
  datatype Event = Look(r: Request, now: nat) | Store(r: Request, later: nat) | Removal(id: string) | Sweeping(now: nat)

  function AfterEvent(sv: Services, ttl: nat, cache: Entries, e: Event): Entries {
    match e
    case Look(_, _) => cache
    case Store(r, later) =>
      if Answer(sv, r).Ok? then cache[sv.hash(Token(r)) := CacheEntry(Answer(sv, r).value, later + ttl)] else cache
    case Removal(id) => cache - {id}
    case Sweeping(now) => Swept(cache, now)
  }

  /** An undisturbed call is one of these step sequences. */
  lemma UnwrapIsSteps(sv: Services, cache: Entries, ttl: nat, r: Request, now: nat, later: nat)
    ensures var id := sv.hash(Token(r));
            AfterUnwrap(sv, cache, ttl, r, now, later) ==
              if id in Live(cache, now) then AfterEvent(sv, ttl, cache, Look(r, now))
              else AfterEvent(sv, ttl, AfterEvent(sv, ttl, cache, Removal(id)), Store(r, later))
  {
    var id := sv.hash(Token(r));
    if Answer(sv, r).Ok? {
      var entry := CacheEntry(Answer(sv, r).value, later + ttl);
      assert (cache - {id})[id := entry] == cache[id := entry];
    }
  }

  function AfterAll(sv: Services, ttl: nat, cache: Entries, events: seq<Event>): Entries
    decreases |events|
  {
    if events == [] then cache else AfterAll(sv, ttl, AfterEvent(sv, ttl, cache, events[0]), events[1..])
  }

  predicate ExpireBy(cache: Entries, time: nat) {
    forall id :: id in cache ==> cache[id].expiresAt <= time
  }

  /** Whatever happens: once a time to live has passed since the last insertion, no key is had. */
  lemma {:induction false} KeysExpire(sv: Services, ttl: nat, cache: Entries, events: seq<Event>, last: nat, now: nat)
    requires ExpireBy(cache, last + ttl) && now >= last + ttl
    requires forall e :: e in events && e.Store? ==> e.later <= last
    ensures Live(AfterAll(sv, ttl, cache, events), now) == map[]
    decreases |events|
  {
    if events != [] {
      assert events[0] in events;
      assert ExpireBy(AfterEvent(sv, ttl, cache, events[0]), last + ttl);
      KeysExpire(sv, ttl, AfterEvent(sv, ttl, cache, events[0]), events[1..], last, now);
    }
  }

  predicate FromRequests(events: seq<Event>, requests: set<Request>) {
    forall i :: 0 <= i < |events| && (events[i].Look? || events[i].Store?) ==> events[i].r in requests
  }

  /** Every call returns what the key service would say. */
  predicate Coherent(sv: Services, ttl: nat, cache: Entries, events: seq<Event>)
    decreases |events|
  {
    events == [] ||
    ((events[0].Look? ==> Unwrap(sv, cache, events[0].r, events[0].now) == Answer(sv, events[0].r)) &&
     Coherent(sv, ttl, AfterEvent(sv, ttl, cache, events[0]), events[1..]))
  }

  /** Requests with the same token have the same answer, unless there is no key to cache. */
  predicate Consistent(sv: Services, requests: set<Request>) {
    forall r, q :: r in requests && q in requests && Token(r) == Token(q) && Answer(sv, r).Ok? ==> Answer(sv, q) == Answer(sv, r)
  }

  ghost predicate Injective(hash: string -> string) {
    forall a, b :: hash(a) == hash(b) ==> a == b
  }

  /** Every entry comes from one of the requests. */
  predicate Sound(sv: Services, requests: set<Request>, cache: Entries) {
    forall id :: id in cache ==> exists r :: r in requests && sv.hash(Token(r)) == id && Answer(sv, r) == Ok(cache[id].key)
  }

  lemma EventKeepsSound(sv: Services, ttl: nat, requests: set<Request>, cache: Entries, e: Event)
    requires Sound(sv, requests, cache) && ((e.Look? || e.Store?) ==> e.r in requests)
    ensures Sound(sv, requests, AfterEvent(sv, ttl, cache, e))
  {
  }

  lemma {:induction false} ConsistentIsCoherent(sv: Services, ttl: nat, requests: set<Request>, cache: Entries, events: seq<Event>)
    requires Injective(sv.hash) && Consistent(sv, requests) && Sound(sv, requests, cache) && FromRequests(events, requests)
    ensures Coherent(sv, ttl, cache, events)
    decreases |events|
  {
    if events != [] {
      var e := events[0];
      if e.Look? {
        var id := sv.hash(Token(e.r));
        if id in Live(cache, e.now) {
          var r :| r in requests && sv.hash(Token(r)) == id && Answer(sv, r) == Ok(cache[id].key);
          assert Token(r) == Token(e.r);
        }
      }
      forall i | 0 <= i < |events[1..]| && (events[1..][i].Look? || events[1..][i].Store?) ensures events[1..][i].r in requests {
        assert events[i + 1] == events[1..][i];
      }
      EventKeepsSound(sv, ttl, requests, cache, e);
      ConsistentIsCoherent(sv, ttl, requests, AfterEvent(sv, ttl, cache, e), events[1..]);
    }
  }

  /** One call of r that misses, then one of q that hits. */
  function TwoCalls(r: Request, q: Request): seq<Event> {
    [Look(r, 0), Store(r, 0), Look(q, 0)]
  }

  lemma InconsistentIsIncoherent(sv: Services, ttl: nat, r: Request, q: Request)
    requires ttl > 0 && Token(r) == Token(q) && Answer(sv, r).Ok? && Answer(sv, q) != Answer(sv, r)
    ensures !Coherent(sv, ttl, map[], TwoCalls(r, q))
  {
    var events := TwoCalls(r, q);
    var cache := AfterEvent(sv, ttl, map[], Store(r, 0));
    assert sv.hash(Token(q)) in Live(cache, 0);
    assert events[1..] == [Store(r, 0), Look(q, 0)] && events[1..][1..] == [Look(q, 0)];
    assert !Coherent(sv, ttl, cache, [Look(q, 0)]);
    assert !Coherent(sv, ttl, map[], [Store(r, 0), Look(q, 0)]);
  }

  /**
   Starting from an empty cache, every interleaving of the steps of calls from a set of requests,
   with sweeps and stray removals at any times, returns what the key service would say, exactly
   when requests that share a token share their answer.
   */
  lemma CoherentIff(sv: Services, ttl: nat, requests: set<Request>)
    requires ttl > 0 && Injective(sv.hash)
    ensures (forall events :: FromRequests(events, requests) ==> Coherent(sv, ttl, map[], events)) <==> Consistent(sv, requests)
  {
    if Consistent(sv, requests) {
      forall events | FromRequests(events, requests) ensures Coherent(sv, ttl, map[], events) {
        ConsistentIsCoherent(sv, ttl, requests, map[], events);
      }
    } else {
      var r, q :| r in requests && q in requests && Token(r) == Token(q) && Answer(sv, r).Ok? && Answer(sv, q) != Answer(sv, r);
      InconsistentIsIncoherent(sv, ttl, r, q);
      assert FromRequests(TwoCalls(r, q), requests);
    }
  }

  /** One user and a key service that only looks at the ciphertext: then the cache is coherent. */
  lemma OneUserIsConsistent(sv: Services, requests: set<Request>, user: Option<string>)
    requires forall r :: r in requests ==> r.user == user
    requires forall bytes, c, d :: sv.kms(bytes, c) == sv.kms(bytes, d)
    ensures Consistent(sv, requests)
  {
    forall r, q | r in requests && q in requests && Token(r) == Token(q) && Answer(sv, r).Ok?
      ensures Answer(sv, q) == Answer(sv, r)
    {
      if user.Some? {
        var x := user.value;
        assert Token(r)[..|Token(r)| - |x|] == r.ciphertext && Token(q)[..|Token(q)| - |x|] == q.ciphertext;
      }
    }
  }

  /** Two users may share a token: the one's name can continue the other's ciphertext. */
  lemma UsersCanCollide(sv: Services)
    requires Answer(sv, Request("AAAA", None, Some("BBBB"))).Ok?
    requires Answer(sv, Request("AAAABBBB", None, None)) != Answer(sv, Request("AAAA", None, Some("BBBB")))
    ensures !Consistent(sv, {Request("AAAA", None, Some("BBBB")), Request("AAAABBBB", None, None)})
  {
    var r, q := Request("AAAA", None, Some("BBBB")), Request("AAAABBBB", None, None);
    assert Token(r) == "AAAA" + "BBBB" == "AAAABBBB" == Token(q);
    assert r in {r, q} && q in {r, q};
  }

  /** Nor is the key service's context part of the token: a key released for one context answers another. */
  lemma ContextsCollide(sv: Services, ciphertext: string, bytes: seq<int>, user: Option<string>, c: KmsContext, d: KmsContext)
    requires sv.decode(ciphertext) == Some(bytes)
    requires sv.kms(bytes, c).Ok? && sv.kms(bytes, d) != sv.kms(bytes, c)
    ensures !Consistent(sv, {Request(ciphertext, c, user), Request(ciphertext, d, user)})
  {
    var r, q := Request(ciphertext, c, user), Request(ciphertext, d, user);
    assert r in {r, q} && q in {r, q};
    assert Token(r) == Token(q) && Answer(sv, q) != Answer(sv, r);
  }
}
