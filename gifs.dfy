/** Value types shared by the whole model: the items the media search API
    returns and the binary payloads the downloader handles. */
module Gifs {

  datatype Option<+T> = None | Some(value: T)

  /** A binary payload. Its bytes are opaque to the component; only the
      size is inspected (the zero-length check and the cleanup delay). */
  datatype Blob = Blob(size: nat, mediaType: string)

  /** One image variant of an item (`images[size]` in the API response). */
  datatype Rendition = Rendition(url: string, width: nat, height: nat)

  /** An item of the search API. A missing or null title is the empty
      string; `images` maps a variant name such as "original" or
      "fixed_height" to its rendition. */
  datatype Gif = Gif(id: string, title: string, images: map<string, Rendition>)

  /** The variant every handler falls back to or starts with. */
  const Original: string := "original"
}
