/** Image normalisation (utils/nomalize-image.ts): a media entry of the content store
    is reduced to the url and the alternative text the front end needs. */
module Media {
  import opened Text
  import Js

  /** A media entry as the store returns it: the two fields the normaliser reads and
      whatever else the entry carries (sizes, formats, hashes, ...). */
  datatype Image = Image(url: Js.Value, alternativeText: Js.Value, rest: map<string, Js.Value>)

  /** A normalised image: exactly a url and an alternative text. */
  datatype NormImage = NormImage(url: Js.Value, alt: Js.Value)

  /** `v || null`. */
  function OrNull(v: Js.Value): (r: Js.Value)
    ensures Js.Truthy(v) ==> r == v
    ensures !Js.Truthy(v) ==> r == Js.Null
  {
    Js.Or(v, Js.Null)
  }

  /** `normalizeImage`: none for a missing entry (null or undefined); otherwise the url
      and the alternative text, each kept when it is truthy and null when it is not. */
  function NormalizeImage(image: Option<Image>): (r: Option<NormImage>)
    ensures r.None? <==> image.None?
    ensures r.Some? ==> (Js.Truthy(r.value.url) || r.value.url.Null?)
    ensures r.Some? ==> (Js.Truthy(r.value.alt) || r.value.alt.Null?)
    ensures r.Some? && Js.Truthy(image.value.url) ==> r.value.url == image.value.url
    ensures r.Some? && !Js.Truthy(image.value.url) ==> r.value.url.Null?
    ensures r.Some? && Js.Truthy(image.value.alternativeText) ==> r.value.alt == image.value.alternativeText
    ensures r.Some? && !Js.Truthy(image.value.alternativeText) ==> r.value.alt.Null?
  {
    match image
    case None => None
    case Some(img) => Some(NormImage(OrNull(img.url), OrNull(img.alternativeText)))
  }

  /** Only the url and the alternative text matter: two entries that agree on them
      normalise alike, whatever else they hold. */
  lemma NormalizeIgnoresRest(a: Image, b: Image)
    requires a.url == b.url && a.alternativeText == b.alternativeText
    ensures NormalizeImage(Some(a)) == NormalizeImage(Some(b))
  {
  }

  /** Normalising is idempotent: an entry holding just a normalised image's fields
      normalises back to that image. */
  lemma NormalizeIdempotent(image: Option<Image>)
    ensures var r := NormalizeImage(image);
      r.Some? ==> NormalizeImage(Some(Image(r.value.url, r.value.alt, map[]))) == r
  {
  }
}
