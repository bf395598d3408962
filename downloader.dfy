/** The download orchestrator (`downloadGifOptimized`): serve a cached
    payload, or fetch it, cache it and hand it to the save trigger, falling
    back to the proxy download on every failure. Network answers are inputs;
    the calls to the save trigger and to the proxy download are recorded as
    events. */
module Downloader {
  import opened Gifs
  import opened Cache

  /** `{ loading: true, progress: 0 }`, the only progress value ever stored. */
  datatype Progress = Progress(loading: bool, percent: nat)

  const Started: Progress := Progress(true, 0)

  /** The answer to the CORS request: a rejection (network error, blocked
      cross-origin request), or a response with its `ok` flag and the result
      of `response.blob()` (None when reading the body rejects). */
  datatype FetchOutcome = FetchRejected | Responded(ok: bool, body: Option<Blob>)

  /** The answer to the `no-cors` probe sent after a response that is not ok. */
  datatype ProbeOutcome = ProbeRejected | ProbeResponded(isOpaque: bool)

  /** Everything the network and the proxy download contribute to one call. */
  datatype Network = Network(cors: FetchOutcome, probe: ProbeOutcome, proxyThrows: bool)

  datatype Event =
    | CorsFetch(url: string)
    | NoCorsFetch(url: string)
    | TriggerDownload(blob: Blob, filename: string)
    | ProxyDownload(url: string, filename: string)
    | ProgressClearScheduled(key: string)
    | ManualSaveAlert

  predicate IsNetworkRequest(e: Event)
  {
    e.CorsFetch? || e.NoCorsFetch?
  }

  /** Why a cache miss ends in the catch block. */
  datatype Failure = FetchFailed | ProbeFailed | BodyUnreadable | EmptyBlob

  /** The path a cache miss takes through the try block: store the payload,
      hand the URL to the proxy download on an opaque probe, or fail. */
  datatype Route = Store(blob: Blob) | OpaqueProxy | Fail(reason: Failure)

  function RouteOf(net: Network): (r: Route)
    // a payload is stored exactly when one was read and is non-empty, and
    // either the response was ok or the probe answered without being opaque
    ensures r.Store? <==>
              && net.cors.Responded? && net.cors.body.Some? && net.cors.body.value.size > 0
              && (net.cors.ok || net.probe == ProbeResponded(false))
    ensures r.Store? ==> r.blob.size > 0 && net.cors.body == Some(r.blob)
    ensures r == OpaqueProxy <==>
              net.cors.Responded? && !net.cors.ok && net.probe == ProbeResponded(true)
    ensures r == Fail(EmptyBlob) <==>
              && net.cors.Responded? && net.cors.body.Some? && net.cors.body.value.size == 0
              && (net.cors.ok || net.probe == ProbeResponded(false))
  {
    match net.cors
    case FetchRejected => Fail(FetchFailed)
    case Responded(ok, body) =>
      if !ok && net.probe == ProbeRejected then Fail(ProbeFailed)
      else if !ok && net.probe.isOpaque then OpaqueProxy
      else match body
        case None => Fail(BodyUnreadable)
        case Some(b) => if b.size == 0 then Fail(EmptyBlob) else Store(b)
  }

  /** A response that is not ok, answered by a probe that is not opaque,
      still has its body read and stored. */
  lemma NotOkResponseCanBeStored(b: Blob)
    requires b.size > 0
    ensures RouteOf(Network(Responded(false, Some(b)), ProbeResponded(false), false)) == Store(b)
  {
  }

  /** The requests a cache miss sends: the CORS request, then the probe when
      the response was not ok. */
  function Fetches(url: string, net: Network): (r: seq<Event>)
    ensures 1 <= |r| <= 2 && r[0] == CorsFetch(url)
    ensures |r| == 2 <==> net.cors.Responded? && !net.cors.ok
    ensures |r| == 2 ==> r[1] == NoCorsFetch(url)
    ensures forall e :: e in r ==> IsNetworkRequest(e)
  {
    [CorsFetch(url)] + (if net.cors.Responded? && !net.cors.ok then [NoCorsFetch(url)] else [])
  }

  class Downloader {
    const cache: DownloadCache
    /** `downloadProgress`: the keys whose download is in flight. */
    var progress: map<string, Progress>

    ghost predicate Valid()
      reads this, cache
    {
      cache.Valid()
    }

    constructor ()
      ensures Valid() && fresh(cache)
      ensures cache.order == [] && cache.blobs == map[] && progress == map[]
    {
      cache := new DownloadCache();
      progress := map[];
    }

    method DownloadGifOptimized(url: string, filename: string, gifId: string, size: string, net: Network)
      returns (events: seq<Event>)
      requires Valid()
      modifies this, cache
      ensures Valid()
      // a cache hit hands the stored payload to the trigger and does nothing else
      ensures var key := CacheKey(gifId, size);
              key in old(cache.blobs) ==>
                && events == [TriggerDownload(old(cache.blobs)[key], filename)]
                && cache.order == old(cache.order) && cache.blobs == old(cache.blobs)
                && progress == old(progress)
      // a non-empty payload is cached (FIFO, at most fifty) and triggered; the
      // progress entry stays until the scheduled clear runs
      ensures var key := CacheKey(gifId, size);
              key !in old(cache.blobs) && RouteOf(net).Store? ==>
                && cache.order == NextOrder(old(cache.order), key)
                && cache.blobs == old(cache.blobs)[key := RouteOf(net).blob] - Evicted(old(cache.order), key)
                && key in cache.blobs
                && progress == old(progress)[key := Started]
                && events == Fetches(url, net)
                             + [TriggerDownload(RouteOf(net).blob, filename), ProgressClearScheduled(key)]
      // an opaque probe hands over to the proxy download and returns without
      // clearing the progress entry; if the proxy download throws, the catch
      // block clears it and runs the proxy download a second time
      ensures var key := CacheKey(gifId, size);
              key !in old(cache.blobs) && RouteOf(net) == OpaqueProxy ==>
                && cache.order == old(cache.order) && cache.blobs == old(cache.blobs)
                && (!net.proxyThrows ==>
                      && progress == old(progress)[key := Started]
                      && events == Fetches(url, net) + [ProxyDownload(url, filename)])
                && (net.proxyThrows ==>
                      && progress == old(progress) - {key}
                      && events == Fetches(url, net)
                                   + [ProxyDownload(url, filename), ProxyDownload(url, filename), ManualSaveAlert])
      // every failure clears the progress entry, caches nothing and falls back
      // to the proxy download, alerting only when that throws too
      ensures var key := CacheKey(gifId, size);
              key !in old(cache.blobs) && RouteOf(net).Fail? ==>
                && cache.order == old(cache.order) && cache.blobs == old(cache.blobs)
                && progress == old(progress) - {key}
                && events == Fetches(url, net) + [ProxyDownload(url, filename)]
                             + (if net.proxyThrows then [ManualSaveAlert] else [])
    {
      var key := CacheKey(gifId, size);
      if cache.Has(key) {
        events := [TriggerDownload(cache.blobs[key], filename)];
        return;
      }
      ghost var before := progress;
      progress := progress[key := Started];
      events := [CorsFetch(url)];
      // `failed` marks a throw inside the try block
      var failed := false;
      var blob := Blob(0, "");
      match net.cors {
        case FetchRejected =>
          failed := true;
        case Responded(ok, body) =>
          if !ok {
            events := events + [NoCorsFetch(url)];
            match net.probe {
              case ProbeRejected =>
                failed := true;
              case ProbeResponded(isOpaque) =>
                if isOpaque {
                  events := events + [ProxyDownload(url, filename)];
                  if !net.proxyThrows {
                    return;
                  }
                  failed := true;
                }
            }
          }
          if !failed {
            match body {
              case None =>
                failed := true;
              case Some(b) =>
                if b.size == 0 {
                  failed := true;
                } else {
                  blob := b;
                }
            }
          }
      }
      if !failed {
        FifoInsert(cache.order, key);
        cache.Put(key, blob);
        events := events + [TriggerDownload(blob, filename), ProgressClearScheduled(key)];
        return;
      }
      // the catch block
      progress := progress - {key};
      assert progress == before - {key};
      events := events + [ProxyDownload(url, filename)];
      if net.proxyThrows {
        events := events + [ManualSaveAlert];
      }
    }

    /** The timer callback that deletes a progress entry. */
    method ClearProgress(key: string)
      requires Valid()
      modifies this
      ensures Valid()
      ensures progress == old(progress) - {key}
    {
      progress := progress - {key};
    }
  }

  /** Asking twice for the same item and variant sends network requests at
      most once when the first call stored the payload: the second call is a
      cache hit. */
  method SaveTwice(d: Downloader, url: string, filename: string, gifId: string, size: string,
                   first: Network, second: Network)
    returns (firstEvents: seq<Event>, secondEvents: seq<Event>)
    requires d.Valid()
    modifies d, d.cache
    ensures d.Valid()
    ensures var key := CacheKey(gifId, size);
            key !in old(d.cache.blobs) && RouteOf(first).Store? ==>
              secondEvents == [TriggerDownload(RouteOf(first).blob, filename)]
    ensures var key := CacheKey(gifId, size);
            key in old(d.cache.blobs) ==>
              && firstEvents == [TriggerDownload(old(d.cache.blobs)[key], filename)]
              && secondEvents == firstEvents
    ensures CacheKey(gifId, size) in old(d.cache.blobs) || RouteOf(first).Store? ==>
              forall e :: e in secondEvents ==> !IsNetworkRequest(e)
  {
    firstEvents := d.DownloadGifOptimized(url, filename, gifId, size, first);
    secondEvents := d.DownloadGifOptimized(url, filename, gifId, size, second);
  }
}
