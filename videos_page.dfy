/** The video library page (app/videos/page.tsx): the title search, the
    `H:MM:SS.fff` duration label, and the link to the player page. Durations
    are whole seconds. */
module VideosPage {
  import opened Wrappers
  import opened Text
  import opened Lists
  import opened Records
  import opened Search

  function VideoTitle(v: Video): string {
    v.title
  }

  /** `filteredVideos`: the videos whose lower-cased title contains the
      lower-cased query, in their original order. */
  function FilteredVideos(videos: seq<Video>, searchQuery: string): (r: seq<Video>)
    ensures IsSubsequence(r, videos)
    ensures forall i :: 0 <= i < |r| ==> TitleMatches(r[i].title, searchQuery)
    ensures forall i :: 0 <= i < |videos| ==> (videos[i] in r <==> TitleMatches(videos[i].title, searchQuery))
  {
    SearchByTitle(videos, VideoTitle, searchQuery)
  }

  /** `formatTime(totalSeconds)`: hours and a colon only when there are hours,
      two-digit minutes and seconds, and the three fractional digits, which
      are "000" for a whole number of seconds. */
  function FormatTime(totalSeconds: nat): (shown: string)
    ensures |shown| >= 9 && shown[|shown| - 7] == ':' && shown[|shown| - 4..] == ".000"
    ensures |shown| == 9 <==> totalSeconds < 3600
  {
    var hours := totalSeconds / 3600;
    var minutes := (totalSeconds % 3600) / 60;
    var seconds := totalSeconds % 60;
    var s := (if hours > 0 then Decimal(hours) + ":" else "")
      + TwoDigits(minutes) + ":" + TwoDigits(seconds) + "." + "000";
    assert s[|s| - 4..] == ".000";
    s
  }

  /** Reads a two-digit minutes or seconds field. */
  function ParseField(f: string): Option<nat> {
    if |f| == 2 && AllDigits(f) && DigitsValue(f) < 60 then Some(DigitsValue(f)) else None
  }

  /** Reads the hours part: empty for none, else a positive numeral and a colon. */
  function ParseHours(h: string): Option<nat> {
    if h == [] then Some(0)
    else if h[|h| - 1] == ':' && IsNumeral(h[..|h| - 1]) && DigitsValue(h[..|h| - 1]) > 0
    then Some(DigitsValue(h[..|h| - 1]))
    else None
  }

  /** Reads an `[H:]MM:SS.000` label back into seconds. */
  function ParseTime(s: string): Option<nat> {
    if |s| < 9 || s[|s| - 7] != ':' || s[|s| - 4..] != ".000" then None
    else
      var h, m, sec := ParseHours(s[..|s| - 9]), ParseField(s[|s| - 9..|s| - 7]), ParseField(s[|s| - 6..|s| - 4]);
      if h.Some? && m.Some? && sec.Some? then Some(h.value * 3600 + m.value * 60 + sec.value) else None
  }

  lemma ParseFieldTwoDigits(n: nat)
    requires n < 60
    ensures ParseField(TwoDigits(n)) == Some(n)
  {
  }

  /** A number of seconds is its hours, minutes and seconds recombined. */
  lemma Decompose(t: nat)
    ensures t == (t / 3600) * 3600 + ((t % 3600) / 60) * 60 + t % 60
    ensures (t % 3600) % 60 == t % 60
  {
    var hours, rest := t / 3600, t % 3600;
    var minutes, seconds := rest / 60, rest % 60;
    assert rest == minutes * 60 + seconds;
    assert t == (hours * 60 + minutes) * 60 + seconds;
    MinutesAndSeconds(hours * 60 + minutes, seconds);
  }

  /** The label's layout: an hours part that is empty exactly when there are no
      hours, then minutes below 60 and seconds as two digits each, then ".000". */
  lemma FormatTimeShape(totalSeconds: nat)
    ensures var s := FormatTime(totalSeconds);
      && |s| >= 9 && s[|s| - 4..] == ".000" && s[|s| - 7] == ':'
      && (totalSeconds % 3600) / 60 < 60
      && s[|s| - 9..|s| - 7] == TwoDigits((totalSeconds % 3600) / 60)
      && s[|s| - 6..|s| - 4] == TwoDigits(totalSeconds % 60)
      && (s[..|s| - 9] == [] <==> totalSeconds < 3600)
      && (totalSeconds >= 3600 ==> s[..|s| - 9] == Decimal(totalSeconds / 3600) + ":")
  {
    var s := FormatTime(totalSeconds);
    var hours := totalSeconds / 3600;
    var head := if hours > 0 then Decimal(hours) + ":" else "";
    var mm, ss := TwoDigits((totalSeconds % 3600) / 60), TwoDigits(totalSeconds % 60);
    assert s == head + mm + ":" + ss + "." + "000";
    assert s[..|s| - 9] == head;
    assert s[|s| - 9..|s| - 7] == mm;
    assert s[|s| - 6..|s| - 4] == ss;
  }

  /** Reading back a label gives the duration. */
  lemma FormatTimeRoundTrip(totalSeconds: nat)
    ensures ParseTime(FormatTime(totalSeconds)) == Some(totalSeconds)
  {
    FormatTimeShape(totalSeconds);
    var s := FormatTime(totalSeconds);
    var hours, minutes := totalSeconds / 3600, (totalSeconds % 3600) / 60;
    ParseFieldTwoDigits(minutes);
    ParseFieldTwoDigits(totalSeconds % 60);
    if hours > 0 {
      DecimalRoundTrip(hours);
      var head := s[..|s| - 9];
      assert head[..|head| - 1] == Decimal(hours);
      assert ParseHours(head) == Some(hours);
    }
    Decompose(totalSeconds);
  }

  const WatchPrefix := "/videos/watch?url="

  /** `handleVideoClick(url)`: the player page's address, the url appended unencoded. */
  function WatchUrl(url: string): (href: string)
    ensures SearchParamUrl(href).Some?
    ensures (forall i :: 0 <= i < |url| ==> !QuerySpecial(url[i])) ==> SearchParamUrl(href) == Some(url)
  {
    var s := WatchPrefix + url;
    assert s[..|WatchPrefix|] == WatchPrefix && s[|WatchPrefix|..] == url;
    TakeValueWhole(url);
    assert (forall i :: 0 <= i < |url| ==> !QuerySpecial(url[i])) ==> DecodePlus(url) == url;
    s
  }

  /** The characters that end a query value (`&`, `#`) or are decoded by it (`+`, `%`). */
  predicate QuerySpecial(c: char) {
    c == '&' || c == '#' || c == '+' || c == '%'
  }

  /** The raw value up to the next `&` or `#`. */
  function TakeValue(s: string): (r: string)
    ensures |r| <= |s| && r == s[..|r|]
    decreases |s|
  {
    if s == [] || s[0] == '&' || s[0] == '#' then [] else [s[0]] + TakeValue(s[1..])
  }

  /** `+` decodes to a space. */
  function DecodePlus(s: string): (r: string)
    ensures |r| == |s|
  {
    seq(|s|, i requires 0 <= i < |s| => if s[i] == '+' then ' ' else s[i])
  }

  /** What `useSearchParams().get('url')` reads on the player page from an
      address built by `WatchUrl`: the first `url` value, `+` read as a space. */
  function SearchParamUrl(href: string): Option<string> {
    if StartsWith(href, WatchPrefix) then Some(DecodePlus(TakeValue(href[|WatchPrefix|..]))) else None
  }

  /** A value free of `&` and `#` is read whole. */
  lemma {:induction false} TakeValueWhole(s: string)
    ensures (forall i :: 0 <= i < |s| ==> !QuerySpecial(s[i])) ==> TakeValue(s) == s
    decreases |s|
  {
    if s != [] {
      TakeValueWhole(s[1..]);
    }
  }

  /** Because the url is not encoded, an `&` in it cuts it short on the player page. */
  lemma AmpersandTruncates()
    ensures SearchParamUrl(WatchUrl("v.mp4&x=1")) == Some("v.mp4")
  {
    var href, rest := WatchUrl("v.mp4&x=1"), "v.mp4&x=1";
    assert href[..|WatchPrefix|] == WatchPrefix && href[|WatchPrefix|..] == rest;
    assert rest[5..][0] == '&' && TakeValue(rest[5..]) == [];
    assert rest[4..][1..] == rest[5..] && TakeValue(rest[4..]) == "4";
    assert rest[3..][1..] == rest[4..] && TakeValue(rest[3..]) == "p4";
    assert rest[2..][1..] == rest[3..] && TakeValue(rest[2..]) == "mp4";
    assert rest[1..][1..] == rest[2..] && TakeValue(rest[1..]) == ".mp4";
    assert TakeValue(rest) == "v.mp4";
    assert DecodePlus("v.mp4") == "v.mp4";
  }
}
