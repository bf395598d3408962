/** The download handlers of the item view: which downloads a click starts.
    A started download is the argument tuple of `downloadGifOptimized`;
    `now` is the value `Date.now()` returns during the click. */
module Handlers {
  import opened Gifs
  import Text

  datatype DownloadRequest = DownloadRequest(url: string, filename: string, gifId: string, size: string)

  /** The request the handlers build for variant `size`, fetched from `rendition`. */
  function RequestFor(gif: Gif, size: string, rendition: Rendition, now: nat): DownloadRequest
  {
    DownloadRequest(rendition.url, Text.DownloadFileName(gif.title, size, now), gif.id, size)
  }

  /** The three endings of `handleDownload`: nothing selected, the variant is
      missing (an alert), or one download started. */
  datatype SingleResult = NoSelection | SizeUnavailable | Started(request: DownloadRequest)

  function HandleDownload(selected: Option<Gif>, size: string, now: nat): (r: SingleResult)
    ensures r == NoSelection <==> selected.None?
    ensures r == SizeUnavailable <==> selected.Some? && size !in selected.value.images
    ensures r.Started? ==>
              && r.request.url == selected.value.images[size].url
              && r.request.gifId == selected.value.id
              && r.request.size == size
              && r.request.filename == Text.DownloadFileName(selected.value.title, size, now)
  {
    match selected
    case None => NoSelection
    case Some(gif) =>
      if size !in gif.images then SizeUnavailable
      else Started(RequestFor(gif, size, gif.images[size], now))
  }

  /** The sizes a batch skips because the item lacks them. */
  function CountMissing(gif: Gif, sizes: seq<string>): nat
  {
    if sizes == [] then 0
    else (if sizes[0] in gif.images then 0 else 1) + CountMissing(gif, sizes[1..])
  }

  /** The requested sizes the item has, in request order. */
  function PresentSizes(gif: Gif, sizes: seq<string>): (r: seq<string>)
    ensures |r| + CountMissing(gif, sizes) == |sizes|
    ensures forall i :: 0 <= i < |r| ==> r[i] in sizes && r[i] in gif.images
  {
    if sizes == [] then []
    else if sizes[0] in gif.images then [sizes[0]] + PresentSizes(gif, sizes[1..])
    else PresentSizes(gif, sizes[1..])
  }

  /** `sizes.map(...).filter(Boolean)`: one download per requested size that
      the item has, in request order. */
  function BatchRequests(gif: Gif, sizes: seq<string>, now: nat): (r: seq<DownloadRequest>)
    ensures |r| == |PresentSizes(gif, sizes)|
    ensures forall i :: 0 <= i < |r| ==>
              var size := PresentSizes(gif, sizes)[i];
              size in gif.images && r[i] == RequestFor(gif, size, gif.images[size], now)
  {
    if sizes == [] then []
    else if sizes[0] in gif.images then
      [RequestFor(gif, sizes[0], gif.images[sizes[0]], now)] + BatchRequests(gif, sizes[1..], now)
    else BatchRequests(gif, sizes[1..], now)
  }

  /** The batch follows the request order: the sizes kept from a
      concatenation of size lists are those of each list in turn. */
  lemma {:induction false} PresentSizesAppend(gif: Gif, a: seq<string>, b: seq<string>)
    ensures PresentSizes(gif, a + b) == PresentSizes(gif, a) + PresentSizes(gif, b)
  {
    if a == [] {
      assert a + b == b;
    } else {
      assert (a + b)[0] == a[0];
      assert (a + b)[1..] == a[1..] + b;
      PresentSizesAppend(gif, a[1..], b);
      if a[0] in gif.images {
        assert PresentSizes(gif, a + b) == [a[0]] + PresentSizes(gif, a[1..] + b);
        assert PresentSizes(gif, a) == [a[0]] + PresentSizes(gif, a[1..]);
      } else {
        assert PresentSizes(gif, a + b) == PresentSizes(gif, a[1..] + b);
        assert PresentSizes(gif, a) == PresentSizes(gif, a[1..]);
      }
    }
  }

  /** Every requested size the item has gets a download. */
  lemma {:induction false} PresentSizesCover(gif: Gif, sizes: seq<string>, k: nat)
    requires k < |sizes| && sizes[k] in gif.images
    ensures sizes[k] in PresentSizes(gif, sizes)
  {
    if k > 0 {
      PresentSizesCover(gif, sizes[1..], k - 1);
    }
  }

  /** `handleBatchDownload`: nothing without a selected item. */
  function HandleBatchDownload(selected: Option<Gif>, sizes: seq<string>, now: nat): (r: seq<DownloadRequest>)
    ensures selected.None? ==> r == []
    ensures selected.Some? ==> |r| == |sizes| - CountMissing(selected.value, sizes)
  {
    match selected
    case None => []
    case Some(gif) => BatchRequests(gif, sizes, now)
  }

  /** The sizes `handleBatchDownload` requests when called without any. */
  const DefaultBatchSizes: seq<string> := [Original]

  /** Without a size list the batch is one download of the original
      rendition, or none when the item lacks it. */
  lemma DefaultBatchIsOriginal(gif: Gif, now: nat)
    ensures var r := HandleBatchDownload(Some(gif), DefaultBatchSizes, now);
            && (Original in gif.images ==> r == [RequestFor(gif, Original, gif.images[Original], now)])
            && (Original !in gif.images ==> r == [])
  {
    assert DefaultBatchSizes[1..] == [];
  }

  /** The sizes the item view's "download all" button requests. */
  const AllSizes: seq<string> := ["original", "downsized_large", "fixed_height", "fixed_width_small"]

  /** Four sizes with the third one missing start exactly three downloads,
      for the other three sizes in order. */
  lemma BatchOfFourWithThirdMissing(gif: Gif, sizes: seq<string>, now: nat)
    requires |sizes| == 4
    requires sizes[0] in gif.images && sizes[1] in gif.images
    requires sizes[2] !in gif.images && sizes[3] in gif.images
    ensures var r := HandleBatchDownload(Some(gif), sizes, now);
            |r| == 3 && r[0].size == sizes[0] && r[1].size == sizes[1] && r[2].size == sizes[3]
  {
    assert sizes[3..][1..] == [];
    assert sizes[2..][1..] == sizes[3..];
    assert sizes[1..][1..] == sizes[2..];
    assert PresentSizes(gif, sizes[3..]) == [sizes[3]];
    assert PresentSizes(gif, sizes[2..]) == [sizes[3]];
    assert PresentSizes(gif, sizes[1..]) == [sizes[1], sizes[3]];
    assert PresentSizes(gif, sizes) == [sizes[0], sizes[1], sizes[3]];
  }

  /** The item view's "download all" button on an item without a
      `fixed_height` variant starts three downloads. */
  lemma BatchWithOneMissingSize(gif: Gif, now: nat)
    requires "original" in gif.images && "downsized_large" in gif.images
    requires "fixed_height" !in gif.images && "fixed_width_small" in gif.images
    ensures var r := HandleBatchDownload(Some(gif), AllSizes, now);
            |r| == 3 && r[0].size == "original" && r[1].size == "downsized_large"
            && r[2].size == "fixed_width_small"
  {
    BatchOfFourWithThirdMissing(gif, AllSizes, now);
  }

  /** The default variant of the quick-download button. */
  const QuickDefaultSize: string := "downsized_large"

  datatype QuickResult = QuickStarted(request: DownloadRequest) | NoOptions

  /** `handleQuickDownload`: the requested variant, else the original one,
      but always under the requested size's cache key and file name. */
  function HandleQuickDownload(gif: Gif, size: string, now: nat): (r: QuickResult)
    // nothing starts only when neither variant exists, so the branch that
    // would retry with the original variant can never run
    ensures r == NoOptions <==> size !in gif.images && Original !in gif.images
    ensures r.QuickStarted? ==>
              && r.request.url == (if size in gif.images then gif.images[size] else gif.images[Original]).url
              && r.request.size == size
              && r.request.gifId == gif.id
              && r.request.filename == Text.DownloadFileName(gif.title, size, now)
  {
    if size in gif.images then QuickStarted(RequestFor(gif, size, gif.images[size], now))
    else if Original in gif.images then QuickStarted(RequestFor(gif, size, gif.images[Original], now))
    else NoOptions
  }

  /** With the variant missing, the download fetches the original rendition
      but keeps the requested size in its cache key and file name. */
  lemma QuickFallbackKeepsRequestedSize(gif: Gif, now: nat)
    requires QuickDefaultSize !in gif.images && Original in gif.images
    ensures var r := HandleQuickDownload(gif, QuickDefaultSize, now);
            && r.QuickStarted?
            && r.request.url == gif.images[Original].url
            && r.request.size == "downsized_large"
            && r.request.filename != Text.DownloadFileName(gif.title, Original, now)
  {
    var r := HandleQuickDownload(gif, QuickDefaultSize, now);
    var a := Text.DownloadFileName(gif.title, QuickDefaultSize, now);
    var b := Text.DownloadFileName(gif.title, Original, now);
    var stem := Text.SanitizeTitle(gif.title);
    Text.DownloadFileNameParts(gif.title, QuickDefaultSize, now);
    Text.DownloadFileNameParts(gif.title, Original, now);
    assert |a| != |b|;
  }
}
