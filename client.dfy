/**
 * The process-wide cache of RPC clients, keyed by RPC URL, and the
 * `TrueMarketClient` constructor that fills it: a client is created for a URL
 * only when none is cached, then the cached one is used.
 */
module Client {

  /** An RPC client built by `createPublicClient`, known only by its identity. */
  type ClientId = nat

  /** Insert-if-absent: the map after `has(url) ? no-op : set(url, created)`. */
  function InsertIfAbsent(m: map<string, ClientId>, url: string, created: ClientId): (m': map<string, ClientId>)
    ensures url in m'
    ensures url in m ==> m'[url] == m[url]
    ensures url !in m ==> m'[url] == created
    ensures m'.Keys == m.Keys + {url}
    ensures forall k :: k in m && k != url ==> m'[k] == m[k]
  {
    if url in m then m else m[url := created]
  }

  /** Every URL has its own client: no client is shared by two URLs. */
  ghost predicate Injective(m: map<string, ClientId>) {
    forall u, v :: u in m && v in m && u != v ==> m[u] != m[v]
  }

  /** Every cached client was built before `next`. */
  ghost predicate Below(m: map<string, ClientId>, next: ClientId) {
    forall u :: u in m ==> m[u] < next
  }

  /** A second insert for the same URL changes nothing. */
  lemma InsertIfAbsentIdempotent(m: map<string, ClientId>, url: string, c1: ClientId, c2: ClientId)
    ensures InsertIfAbsent(InsertIfAbsent(m, url, c1), url, c2) == InsertIfAbsent(m, url, c1)
  {
  }

  /** Inserting a client newer than all cached ones keeps clients distinct per URL. */
  lemma InsertIfAbsentKeepsInjective(m: map<string, ClientId>, url: string, next: ClientId)
    requires Injective(m) && Below(m, next)
    ensures Injective(InsertIfAbsent(m, url, next))
    ensures Below(InsertIfAbsent(m, url, next), next + 1)
  {
  }

  /** `TrueMarketClient.clientCache`, together with the source of new client identities. */
  class ClientCache {
    var entries: map<string, ClientId>
    var next: ClientId

    ghost predicate Valid()
      reads this
    {
      Injective(entries) && Below(entries, next)
    }

    constructor ()
      ensures Valid() && entries == map[]
    {
      entries := map[];
      next := 0;
    }

    /** `createPublicClient(...)`: a client distinct from every client built so far. */
    method Create() returns (c: ClientId)
      requires Valid()
      modifies this`next
      ensures Valid()
      ensures c == old(next) && next == old(next) + 1
      ensures forall u :: u in entries ==> entries[u] != c
    {
      c := next;
      next := next + 1;
    }
  }

  /** The part of `TrueMarketClient` its constructor sets. */
  class TrueMarketClient {
    var client: ClientId
    var helperContractAddress: string

    /**
     * The constructor: create and cache a client for `rpcUrl` unless one is
     * cached, then take the cached one.
     */
    constructor (cache: ClientCache, rpcUrl: string, helperAddress: string)
      requires cache.Valid()
      modifies cache
      ensures cache.Valid()
      ensures cache.entries == InsertIfAbsent(old(cache.entries), rpcUrl, old(cache.next))
      ensures rpcUrl in old(cache.entries) ==> cache.entries == old(cache.entries) && cache.next == old(cache.next)
      ensures rpcUrl !in old(cache.entries) ==> cache.next == old(cache.next) + 1
      ensures rpcUrl !in old(cache.entries) ==> client !in old(cache.entries).Values
      ensures client == cache.entries[rpcUrl]
      ensures helperContractAddress == helperAddress
    {
      if rpcUrl !in cache.entries {
        var created := cache.Create();
        InsertIfAbsentKeepsInjective(cache.entries, rpcUrl, created);
        cache.entries := cache.entries[rpcUrl := created];
      }
      client := cache.entries[rpcUrl];
      helperContractAddress := helperAddress;
    }
  }

  /** Two clients share their RPC client exactly when they were built for the same URL. */
  method TwoClients(cache: ClientCache, url1: string, url2: string, helper: string)
      returns (a: TrueMarketClient, b: TrueMarketClient)
    requires cache.Valid()
    modifies cache
    ensures cache.Valid()
    ensures a.client == b.client <==> url1 == url2
    ensures cache.entries.Keys == old(cache.entries.Keys) + {url1, url2}
    ensures a.client == cache.entries[url1] && b.client == cache.entries[url2]
    ensures forall u :: u in old(cache.entries) ==> cache.entries[u] == old(cache.entries)[u]
  {
    a := new TrueMarketClient(cache, url1, helper);
    b := new TrueMarketClient(cache, url2, helper);
  }
}
