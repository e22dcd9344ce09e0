/** helpers/getUlrl.ts: the image URL variant that falls back to a placeholder
    image instead of the empty string, and its YouTube URL. */
module PlaceholderUrls {
  import opened Wrappers
  import opened Urls
  import GetUrl

  const PlaceholderImage := "/images/placeholder.png"

  /** getImageUrl with the placeholder fallback. */
  function ImageUrl(path: Option<string>, size: string := "w500"): (r: string)
    ensures r != ""
    ensures r == PlaceholderImage <==> path.None? || path.value == ""
    ensures r != PlaceholderImage ==> r == GetUrl.ImageUrl(path, size)
  {
    if path.None? || path.value == "" then PlaceholderImage else ImageBaseUrl + "/" + size + path.value
  }

  /** The two image helpers differ only in what an empty path gives. */
  lemma ImageUrlVariants(path: Option<string>, size: string)
    ensures ImageUrl(path, size) == if GetUrl.ImageUrl(path, size) == "" then PlaceholderImage else GetUrl.ImageUrl(path, size)
  {
  }

  /** getYoutubeUrl, the same URL as the other helper file builds. */
  function YoutubeUrl(id: string): (r: string)
    ensures r == GetUrl.YoutubeUrl(id)
  {
    YoutubeWatchPrefix + id
  }
}
