/*
 * `wpl_gmb_get_data_from_post_id`'s field resolution: summary, page URL and
 * photo URL of a listing post, each replaced by the saved default when its
 * override flag is set, and the photo falling back to the default when the
 * listing's thumbnail does not qualify.
 */
module GmbCompose {
  import opened Wrappers
  import opened PhpValues
  import opened GmbOptions

  /** A listing's featured image as WordPress reports it: the full-size
      URL and the default-size URL (empty when unavailable), the width and
      height `getimagesize` reads (absent when it fails), and the
      Content-Length the image's headers carry, if any. */
  datatype Thumbnail = Thumbnail(
    fullUrl: string,
    fallbackUrl: string,
    dims: Option<(int, int)>,
    contentLength: Option<int>)

  /** What the composer reads of a listing post: its content, its
      permalink (empty when WordPress has none) and its thumbnail. */
  datatype ListingPost = ListingPost(content: string, permalink: string, thumbnail: Option<Thumbnail>)

  /** The three values handed to the publisher. */
  datatype Draft = Draft(summary: string, photoUrl: string, pageUrl: string)

  const MinDimension: int := 250
  const MinImageBytes: int := 10240
  const MaxImageBytes: int := 5242880

  /** The size assumed when no Content-Length is found. */
  const AssumedImageBytes: int := 10241

  /** The full-size URL, or the default-size one when that is empty. */
  function ImageUrl(t: Thumbnail): string {
    if EmptyString(t.fullUrl) then t.fallbackUrl else t.fullUrl
  }

  /** The image size read from a header array: its Content-Length, or the
      assumed size without one. */
  function SizeFromHeaders(headers: Option<int>): int {
    headers.GetOr(AssumedImageBytes)
  }

  /** The thumbnail check: both sides over 250 pixels and the size strictly
      between 10240 bytes and 5 MB. The headers are fetched into one
      variable and the size is read from another that is never assigned, so
      the size checked is always the assumed one. */
  predicate Qualifies(t: Thumbnail) {
    var headersRead: Option<int> := None;
    var bytes := SizeFromHeaders(headersRead);
    && t.dims.Some?
    && t.dims.value.0 > MinDimension && t.dims.value.1 > MinDimension
    && MinImageBytes < bytes < MaxImageBytes
  }

  /** The image size never matters: a thumbnail qualifies exactly when both
      its sides exceed 250 pixels, whatever Content-Length it reports. */
  lemma ImageSizeNeverRead(t: Thumbnail, reported: Option<int>)
    ensures Qualifies(t) <==> t.dims.Some? && t.dims.value.0 > 250 && t.dims.value.1 > 250
    ensures Qualifies(t.(contentLength := reported)) == Qualifies(t)
  {
  }

  /** Had the fetched headers been read, a reported size outside the
      window would have rejected an image the code accepts. */
  lemma OversizedImageAccepted()
    ensures var t := Thumbnail("https://example.com/a.jpg", "", Some((800, 600)), Some(9000000));
            Qualifies(t) && !(MinImageBytes < SizeFromHeaders(t.contentLength) < MaxImageBytes)
  {
  }

  /** The photo URL: the default when its override is set; otherwise the
      thumbnail when it exists and qualifies; an empty result falls back to
      the default. */
  function PhotoFor(d: PostingDefaults, post: ListingPost): (photo: string)
    ensures photo == d.photo || (post.thumbnail.Some? && photo == ImageUrl(post.thumbnail.value))
    ensures photo != d.photo ==> !d.photoOverride && Qualifies(post.thumbnail.value) && !EmptyString(photo)
  {
    var chosen :=
      if d.photoOverride then d.photo
      else if post.thumbnail.Some? && Qualifies(post.thumbnail.value) then ImageUrl(post.thumbnail.value)
      else "";
    if EmptyString(chosen) then d.photo else chosen
  }

  /** The thumbnail is used exactly when the photo override is off, the
      thumbnail qualifies and its URL is not empty. */
  lemma ThumbnailUsedIff(d: PostingDefaults, post: ListingPost)
    requires post.thumbnail.Some? && ImageUrl(post.thumbnail.value) != d.photo
    ensures PhotoFor(d, post) == ImageUrl(post.thumbnail.value) <==>
            !d.photoOverride && Qualifies(post.thumbnail.value) && !EmptyString(ImageUrl(post.thumbnail.value))
  {
  }

  /** Field resolution for one listing post. */
  function ComposeDraft(d: PostingDefaults, post: ListingPost): (r: Draft)
    ensures d.summaryOverride ==> r.summary == d.summary
    ensures !d.summaryOverride ==> r.summary == post.content
    ensures d.linkOverride ==> r.pageUrl == d.link
    ensures !d.linkOverride ==> r.pageUrl == post.permalink
    ensures d.photoOverride ==> r.photoUrl == d.photo
    ensures r.photoUrl == d.photo ||
            (!d.photoOverride && post.thumbnail.Some? && Qualifies(post.thumbnail.value) &&
             r.photoUrl == ImageUrl(post.thumbnail.value) && !EmptyString(r.photoUrl))
  {
    Draft(
      if d.summaryOverride then d.summary else post.content,
      PhotoFor(d, post),
      if d.linkOverride then d.link else post.permalink)
  }

  /** With every override off, the listing supplies all three values when
      its thumbnail qualifies and every value is non-empty; the defaults are
      not consulted. */
  lemma ListingUsedWithoutOverrides(d: PostingDefaults, post: ListingPost)
    requires !d.summaryOverride && !d.linkOverride && !d.photoOverride
    requires post.thumbnail.Some? && Qualifies(post.thumbnail.value)
    requires !EmptyString(ImageUrl(post.thumbnail.value))
    ensures ComposeDraft(d, post) == Draft(post.content, ImageUrl(post.thumbnail.value), post.permalink)
    ensures forall d': PostingDefaults :: !d'.summaryOverride && !d'.linkOverride && !d'.photoOverride ==>
              ComposeDraft(d', post) == ComposeDraft(d, post)
  {
  }

  /** With every override set, the listing contributes nothing: the draft
      is the saved defaults. */
  lemma OverridesIgnoreListing(d: PostingDefaults, post: ListingPost)
    requires d.summaryOverride && d.linkOverride && d.photoOverride
    ensures ComposeDraft(d, post) == Draft(d.summary, d.photo, d.link)
  {
  }
}
