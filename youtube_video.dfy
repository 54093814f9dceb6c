/** The YouTube video list: the watch URL of a video and the shortened title shown in the list. */
module YouTubeVideo {
  import opened Wrappers
  import opened Strings

  const WatchPrefix: string := "https://youtube.com/watch?v="
  const MaxTitleLength: nat := 70
  const Ellipsis: string := " ..."

  /** `videoUrl`: no URL for a missing (null or undefined) or empty id. */
  function VideoUrl(videoId: Option<string>): (r: Option<string>)
    ensures r.None? <==> videoId.None? || videoId.value == ""
    ensures r.Some? ==> StartsWith(r.value, WatchPrefix) && r.value[|WatchPrefix|..] == videoId.value
  {
    if videoId.Some? && videoId.value != "" then Some(WatchPrefix + videoId.value) else None
  }

  /** Reading the id back from a watch URL. */
  function VideoIdOf(url: string): (r: Option<string>)
    ensures r.Some? ==> r.value != "" && url == WatchPrefix + r.value
  {
    if |url| > |WatchPrefix| && StartsWith(url, WatchPrefix) then
      assert url == WatchPrefix + url[|WatchPrefix|..];
      Some(url[|WatchPrefix|..])
    else None
  }

  /** Every URL that is produced gives back its id, so different ids give different URLs. */
  lemma VideoUrlRoundTrip(videoId: Option<string>)
    requires VideoUrl(videoId).Some?
    ensures VideoIdOf(VideoUrl(videoId).value) == videoId
  {
  }

  /** The list title: `slice(0, 70)`, followed by " ..." when the title was longer. */
  function DisplayTitle(rawTitle: string): (title: string)
    ensures |rawTitle| <= MaxTitleLength ==> title == rawTitle
    ensures |rawTitle| > MaxTitleLength ==>
              |title| == MaxTitleLength + |Ellipsis| && title == rawTitle[..MaxTitleLength] + Ellipsis
  {
    var shown := if |rawTitle| <= MaxTitleLength then rawTitle else rawTitle[..MaxTitleLength];
    shown + (if |rawTitle| > MaxTitleLength then Ellipsis else "")
  }

  /**
   * The shown title never exceeds 74 characters, always starts with the title's
   * first characters, and ends in " ..." exactly when it was cut.
   */
  lemma DisplayTitleBounds(rawTitle: string)
    ensures |DisplayTitle(rawTitle)| <= MaxTitleLength + |Ellipsis|
    ensures var n := if |rawTitle| < MaxTitleLength then |rawTitle| else MaxTitleLength;
      StartsWith(DisplayTitle(rawTitle), rawTitle[..n])
    ensures |rawTitle| > MaxTitleLength ==> DisplayTitle(rawTitle)[MaxTitleLength..] == Ellipsis
  {
  }

  /** Long titles that agree on their first 70 characters are shown the same. */
  lemma LongTitlesCollide(a: string, b: string)
    requires |a| > MaxTitleLength && |b| > MaxTitleLength && a[..MaxTitleLength] == b[..MaxTitleLength]
    ensures DisplayTitle(a) == DisplayTitle(b)
  {
  }
}
