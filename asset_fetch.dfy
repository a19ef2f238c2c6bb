/** fetchLargeAsset: a large asset (the scaffolding script, the addons
    script, a desktop runtime archive) is looked up by name in the
    catalog, taken from the persistent asset cache when it is there,
    downloaded otherwise, checked against its SHA-256 digest, written back
    to the cache when it came from the network, and handed back. Each
    step reports progress. The network, the digest and the cache's
    storage are parameters of the model. */
module AssetFetch {
  import opened Blobs

  /** A catalog entry of large-assets. `sha256` is the expected hex
      digest; the empty string stands for an entry without one. */
  datatype Asset = Asset(src: string, kind: string, estimatedSize: int, cacheBuster: bool, sha256: string)

  /** The arguments of one xhr call. */
  datatype Request = Request(url: string, kind: string, estimatedSize: int)

  /** What xhr does for a request: the progress values it reports, then
      the body it resolves with, or None when it rejects. */
  datatype Response = Response(progress: seq<real>, body: Option<Blob>)

  datatype FetchError =
    | InvalidAsset(name: string)
    | RequestFailed(url: string)
    | HashMismatch(name: string, found: string, expected: string)

  /** The asset cache as one fetch sees it: its entries, keyed by the
      catalog entry; whether `get` and `set` throw; and the cache-buster
      token. */
  datatype Store = Store(entries: map<Asset, Blob>, readFails: bool, writeFails: bool, buster: string)

  /** Everything one fetch does: its outcome, the progress values it
      dispatched in order, the requests it sent, the value it passed to
      the cache's `set` (if it called it), and the cache entries after. */
  datatype Run = Run(
    outcome: Result<Blob, FetchError>,
    events: seq<real>,
    requests: seq<Request>,
    wrote: Option<Blob>,
    entries: map<Asset, Blob>)

  /** JavaScript truthiness of a fetched value: only the empty string is
      falsy among the values a download produces. */
  predicate Truthy(b: Blob) {
    b != Text("")
  }

  /** The cached value the fetch accepts: none when `get` throws (the
      error is only logged), when the asset is not cached, or when the
      cached value is falsy. */
  function CacheLookup(store: Store, a: Asset): (r: Option<Blob>)
    ensures r.Some? <==> !store.readFails && a in store.entries && Truthy(store.entries[a])
    ensures r.Some? ==> r.value == store.entries[a]
  {
    if !store.readFails && a in store.entries && Truthy(store.entries[a]) then Some(store.entries[a]) else None
  }

  /** The download request: the asset's URL, with `?` and the cache-buster
      token appended exactly when the asset asks for it. */
  function RequestFor(a: Asset, buster: string): (r: Request)
    ensures r.url == a.src + "?" + buster <==> a.cacheBuster
    ensures !a.cacheBuster ==> r.url == a.src
    ensures r.kind == a.kind && r.estimatedSize == a.estimatedSize
  {
    Request(if a.cacheBuster then a.src + "?" + buster else a.src, a.kind, a.estimatedSize)
  }

  /** The reference meaning of one fetchLargeAsset call. */
  function Fetch(catalog: map<string, Asset>, name: string, store: Store, network: Request -> Response, hash: Blob -> string): Run
  {
    if name !in catalog then Run(Err(InvalidAsset(name)), [], [], None, store.entries)
    else
      var a := catalog[name];
      var cached := CacheLookup(store, a);
      var rq := RequestFor(a, store.buster);
      var body := if cached.Some? then cached else network(rq).body;
      var events := [0.0] + (if cached.Some? then [0.5] else network(rq).progress);
      var requests := if cached.Some? then [] else [rq];
      if body.None? then
        Run(Err(RequestFailed(rq.url)), events, requests, None, store.entries)
      else if a.sha256 != "" && hash(body.value) != a.sha256 then
        Run(Err(HashMismatch(name, hash(body.value), a.sha256)), events, requests, None, store.entries)
      else if cached.Some? then
        Run(Ok(body.value), events + [1.0], requests, None, store.entries)
      else
        Run(Ok(body.value), events + [1.0], requests, Some(body.value),
            if store.writeFails then store.entries else store.entries[a := body.value])
  }

  /** What one fetch promises: the order of its steps, where its value
      comes from, the integrity check, and when it writes to the cache. */
  lemma FetchContract(catalog: map<string, Asset>, name: string, store: Store, network: Request -> Response, hash: Blob -> string)
    ensures var r := Fetch(catalog, name, store, network, hash);
      // an unknown name fails before anything else happens
      (r.outcome == Err(InvalidAsset(name)) <==> name !in catalog)
      && (name !in catalog ==> r.events == [] && r.requests == [] && r.entries == store.entries)
      // otherwise progress starts at 0
      && (name in catalog ==> |r.events| > 0 && r.events[0] == 0.0)
      // a cache hit reports 0.5 and sends no request
      && (name in catalog && CacheLookup(store, catalog[name]).Some? ==>
        r.requests == [] && |r.events| >= 2 && r.events[..2] == [0.0, 0.5])
      // a miss sends exactly one request
      && (name in catalog && CacheLookup(store, catalog[name]).None? ==>
        r.requests == [RequestFor(catalog[name], store.buster)])
      // success is announced by a final 1
      && (r.outcome.Ok? ==> |r.events| > 0 && r.events[|r.events| - 1] == 1.0)
      // the value handed back is the cached one or the downloaded one
      && (r.outcome.Ok? && r.requests == [] ==>
        name in catalog && CacheLookup(store, catalog[name]) == Some(r.outcome.value))
      && (r.outcome.Ok? && r.requests != [] ==> network(r.requests[0]).body == Some(r.outcome.value))
      // integrity: with a digest, whatever is handed back hashes to it
      && (r.outcome.Ok? ==> name in catalog && (catalog[name].sha256 != "" ==> hash(r.outcome.value) == catalog[name].sha256))
      // a failure writes nothing
      && (r.outcome.Err? ==> r.wrote == None && r.entries == store.entries)
      // `set` is called exactly for downloaded values that passed the check
      && (r.wrote.Some? <==> r.outcome.Ok? && r.requests != [])
      && (r.wrote.Some? ==> r.wrote == Some(r.outcome.value))
      && (r.wrote.Some? && !store.writeFails ==> name in catalog && r.entries == store.entries[catalog[name] := r.wrote.value])
      && (r.wrote.None? || store.writeFails ==> r.entries == store.entries)
      // which outcome: the value (cached, else downloaded) is handed back
      // when it exists and passes the check; otherwise the error says why
      && (name in catalog ==>
        var a := catalog[name];
        var rq := RequestFor(a, store.buster);
        var hit := CacheLookup(store, a);
        var body := if hit.Some? then hit else network(rq).body;
        (body.None? ==> r.outcome == Err(RequestFailed(rq.url)))
        && (body.Some? && a.sha256 != "" && hash(body.value) != a.sha256 ==>
              r.outcome == Err(HashMismatch(name, hash(body.value), a.sha256)))
        && (body.Some? && (a.sha256 == "" || hash(body.value) == a.sha256) ==> r.outcome == Ok(body.value))
        // the whole progress log: 0, then 0.5 or the download's reports,
        // then 1 on success
        && r.events == [0.0] + (if hit.Some? then [0.5] else network(rq).progress)
                       + (if r.outcome.Ok? then [1.0] else []))
  {
  }

  /** A successful download is remembered: fetching the same asset again
      from the cache it left behind gives the same value without any
      request, reporting 0, 0.5 and 1. */
  lemma FetchAgainHitsCache(catalog: map<string, Asset>, name: string, store: Store, network: Request -> Response, hash: Blob -> string)
    requires !store.readFails && !store.writeFails
    requires Fetch(catalog, name, store, network, hash).outcome.Ok?
    requires Truthy(Fetch(catalog, name, store, network, hash).outcome.value)
    ensures var first := Fetch(catalog, name, store, network, hash);
      var again := Fetch(catalog, name, store.(entries := first.entries), network, hash);
      again.outcome == first.outcome && again.requests == [] && again.events == [0.0, 0.5, 1.0]
      && again.entries == first.entries
  {
    var first := Fetch(catalog, name, store, network, hash);
    var a := catalog[name];
    assert first.entries[a] == first.outcome.value;
    assert CacheLookup(store.(entries := first.entries), a) == Some(first.outcome.value);
  }

  /** A `get` that throws is only logged: the fetch behaves as if the
      asset were not cached. */
  lemma ReadFailureIsMiss(catalog: map<string, Asset>, name: string, store: Store, network: Request -> Response, hash: Blob -> string)
    requires store.readFails
    requires name in catalog
    ensures var failing := Fetch(catalog, name, store, network, hash);
      var missing := Fetch(catalog, name, store.(readFails := false, entries := store.entries - {catalog[name]}), network, hash);
      failing.outcome == missing.outcome && failing.events == missing.events
      && failing.requests == missing.requests && failing.wrote == missing.wrote
  {
    assert CacheLookup(store.(readFails := false, entries := store.entries - {catalog[name]}), catalog[name]).None?;
  }

  /** A `set` that throws is only logged: apart from the cache entries,
      the fetch is the same as with a working cache. */
  lemma WriteFailureHarmless(catalog: map<string, Asset>, name: string, store: Store, network: Request -> Response, hash: Blob -> string)
    ensures var failing := Fetch(catalog, name, store.(writeFails := true), network, hash);
      var working := Fetch(catalog, name, store.(writeFails := false), network, hash);
      failing.outcome == working.outcome && failing.events == working.events
      && failing.requests == working.requests && failing.wrote == working.wrote
      && failing.entries == store.entries
  {
  }

  /** A cached value that fails the digest check is never replaced: every
      later fetch from that cache fails the same way, without a request. */
  lemma MismatchedEntrySticks(catalog: map<string, Asset>, name: string, store: Store, network: Request -> Response, hash: Blob -> string)
    requires name in catalog
    requires CacheLookup(store, catalog[name]).Some?
    requires catalog[name].sha256 != "" && hash(store.entries[catalog[name]]) != catalog[name].sha256
    ensures var first := Fetch(catalog, name, store, network, hash);
      first.outcome.Err? && first.outcome.error.HashMismatch? && first.requests == []
      && Fetch(catalog, name, store.(entries := first.entries), network, hash) == first
  {
  }

  /** The asset cache (a persistent key-value store in the browser),
      seen through its three operations. */
  class AssetCache {
    var entries: map<Asset, Blob>
    const readFails: bool
    const writeFails: bool
    const buster: string

    constructor (entries: map<Asset, Blob>, readFails: bool, writeFails: bool, buster: string)
      ensures State() == Store(entries, readFails, writeFails, buster)
    {
      this.entries := entries;
      this.readFails := readFails;
      this.writeFails := writeFails;
      this.buster := buster;
    }

    function State(): Store
      reads this
    {
      Store(entries, readFails, writeFails, buster)
    }

    /** `assetCache.get(asset)`: the stored value, or an exception. */
    method Get(a: Asset) returns (r: Result<Option<Blob>, ()>)
      ensures readFails ==> r.Err?
      ensures !readFails ==> r == Ok(if a in entries then Some(entries[a]) else None)
    {
      if readFails {
        r := Err(());
      } else if a in entries {
        r := Ok(Some(entries[a]));
      } else {
        r := Ok(None);
      }
    }

    /** `assetCache.set(asset, value)`: stores the value, or throws and
        stores nothing. */
    method Set(a: Asset, b: Blob) returns (r: Result<(), ()>)
      modifies this`entries
      ensures writeFails ==> r.Err? && entries == old(entries)
      ensures !writeFails ==> r.Ok? && entries == old(entries)[a := b]
    {
      if writeFails {
        r := Err(());
      } else {
        entries := entries[a := b];
        r := Ok(());
      }
    }

    /** `assetCache.getCacheBuster()`. */
    function GetCacheBuster(): string
      reads this
    {
      buster
    }
  }
}
