/** The video player page (app/videos/watch/page.tsx): the `M:SS` time
    formatter, the list of recommended videos, and the player controls,
    which update the media element and the component's state in place.
    Times are whole seconds. */
module WatchPage {
  import opened Wrappers
  import opened Text
  import opened Lists
  import opened Records

  /** `formatTime(time)`: unpadded minutes, a colon, and the seconds with a
      leading "0" below ten (`TwoDigits`). Minutes are never rolled into
      hours. The label reads back as the time it shows. */
  function FormatTime(time: nat): (shown: string)
    ensures ParseTime(shown) == Some(time)
  {
    ParseParts(time / 60, time % 60);
    Decimal(time / 60) + ":" + TwoDigits(time % 60)
  }

  /** Reads an `M:SS` string back into seconds. */
  function ParseTime(s: string): Option<nat> {
    if |s| >= 4 && s[|s| - 3] == ':' && IsNumeral(s[..|s| - 3])
      && AllDigits(s[|s| - 2..]) && DigitsValue(s[|s| - 2..]) < 60
    then Some(DigitsValue(s[..|s| - 3]) * 60 + DigitsValue(s[|s| - 2..]))
    else None
  }

  /** A minutes numeral, a colon and a two-digit seconds field read back as their time. */
  lemma ParseParts(minutes: nat, seconds: nat)
    requires seconds < 60
    ensures ParseTime(Decimal(minutes) + ":" + TwoDigits(seconds)) == Some(minutes * 60 + seconds)
  {
    DecimalRoundTrip(minutes);
    ParseJoined(Decimal(minutes), TwoDigits(seconds));
  }

  /** A numeral, a colon and a two-digit field below 60 read back as minutes and seconds. */
  lemma ParseJoined(minutes: string, seconds: string)
    requires IsNumeral(minutes) && |seconds| == 2 && AllDigits(seconds) && DigitsValue(seconds) < 60
    ensures ParseTime(minutes + ":" + seconds) == Some(DigitsValue(minutes) * 60 + DigitsValue(seconds))
  {
    SplitParts(minutes, seconds);
  }

  /** The pieces of `a + ":" + b` for a two-character `b`. */
  lemma SplitParts(a: string, b: string)
    requires |b| == 2
    ensures var s := a + ":" + b;
      |s| >= 3 && s[..|s| - 3] == a && s[|s| - 3] == ':' && s[|s| - 2..] == b
  {
  }

  /** The output is the minutes numeral, a colon, and exactly two second digits from 00 to 59. */
  lemma FormatTimeShape(time: nat)
    ensures var s := FormatTime(time);
      && |s| >= 4 && s[|s| - 3] == ':'
      && s[..|s| - 3] == Decimal(time / 60)
      && s[|s| - 2..] == TwoDigits(time % 60)
      && AllDigits(s[|s| - 2..]) && DigitsValue(s[|s| - 2..]) == time % 60 < 60
  {
    SplitParts(Decimal(time / 60), TwoDigits(time % 60));
  }

  /** Every string the parser accepts is the formatting of what it reads. */
  lemma ParseTimeCanonical(s: string)
    requires ParseTime(s).Some?
    ensures FormatTime(ParseTime(s).value) == s
  {
    var m, sec := s[..|s| - 3], s[|s| - 2..];
    var t := ParseTime(s).value;
    MinutesAndSeconds(DigitsValue(m), DigitsValue(sec));
    NumeralRoundTrip(m);
    TwoDigitsInjective(TwoDigits(t % 60), sec);
    SplitAtColon(s);
  }

  /** An `M:SS` string is its minutes, the colon and its seconds. */
  lemma SplitAtColon(s: string)
    requires |s| >= 4 && s[|s| - 3] == ':'
    ensures s == s[..|s| - 3] + ":" + s[|s| - 2..]
  {
  }

  /** Two-digit strings are determined by their value. */
  lemma TwoDigitsInjective(a: string, b: string)
    requires |a| == 2 && |b| == 2 && AllDigits(a) && AllDigits(b) && DigitsValue(a) == DigitsValue(b)
    ensures a == b
  {
    assert a[..1][..0] == [] && b[..1][..0] == [];
    assert a[..1][0] == a[0] && b[..1][0] == b[0];
    assert DigitsValue(a[..1]) == DigitValue(a[0]) && DigitsValue(b[..1]) == DigitValue(b[0]);
    assert DigitsValue(a) == DigitValue(a[0]) * 10 + DigitValue(a[1]);
    assert DigitsValue(b) == DigitValue(b[0]) * 10 + DigitValue(b[1]);
  }

  /** The callback `v => v.url !== url`. */
  function OtherUrl(url: string): Video -> bool {
    (v: Video) => v.url != url
  }

  /** The recommended list: every fetched video except those at the current url, in order. */
  function Recommended(allVideos: seq<Video>, current: Video): (r: seq<Video>)
    ensures IsSubsequence(r, allVideos)
    ensures forall i :: 0 <= i < |r| ==> r[i].url != current.url
    ensures forall i :: 0 <= i < |allVideos| ==> (allVideos[i] in r <==> allVideos[i].url != current.url)
  {
    FilterIsSubsequence(allVideos, OtherUrl(current.url));
    FilterMembership(allVideos, OtherUrl(current.url));
    Filter(allVideos, OtherUrl(current.url))
  }

  /** The filter keeps every copy: a video appears in the recommended list as
      often as it was fetched when its url differs, and not at all otherwise. */
  lemma RecommendedCount(allVideos: seq<Video>, current: Video, x: Video)
    ensures multiset(Recommended(allVideos, current))[x]
         == if x.url != current.url then multiset(allVideos)[x] else 0
  {
    FilterCount(allVideos, OtherUrl(current.url), x);
  }

  /** The `<video>` element the page controls. */
  class MediaElement {
    var currentTime: nat
    var duration: nat
    var paused: bool
    var muted: bool
    var volume: real

    /** A freshly loaded element: at the start, paused, unmuted, full volume. */
    constructor (duration: nat)
      ensures this.duration == duration
      ensures currentTime == 0 && paused && !muted && volume == 1.0
    {
      this.duration := duration;
      currentTime, paused, muted, volume := 0, true, false, 1.0;
    }
  }

  /** The player component: `videoRef.current` and its `useState` fields. */
  class VideoPlayer {
    var video: MediaElement?
    var isPlaying: bool
    var isMuted: bool
    var volume: real
    var currentTime: nat
    var duration: nat
    var currentVideo: Option<Video>
    var recommendedVideos: seq<Video>

    /** The initial state of every `useState` hook. */
    constructor (video: MediaElement?)
      ensures this.video == video
      ensures !isPlaying && !isMuted && volume == 1.0 && currentTime == 0 && duration == 0
      ensures currentVideo == None && recommendedVideos == []
    {
      this.video := video;
      isPlaying, isMuted, volume, currentTime, duration := false, false, 1.0, 0, 0;
      currentVideo, recommendedVideos := None, [];
    }

    /** `togglePlay`: flips the element between playing and paused and mirrors it into `isPlaying`. */
    method TogglePlay()
      modifies this`isPlaying, video
      ensures video != null ==> video.paused == !old(video.paused) && isPlaying == !video.paused
      ensures video != null ==> unchanged(video`currentTime, video`duration, video`muted, video`volume)
      ensures video == null ==> isPlaying == old(isPlaying)
    {
      if video == null {
        return;
      }
      video.paused := !video.paused;
      isPlaying := !video.paused;
    }

    /** `toggleMute`: flips the element's muted flag and mirrors it into `isMuted`. */
    method ToggleMute()
      modifies this`isMuted, video
      ensures video != null ==> video.muted == !old(video.muted) && isMuted == video.muted
      ensures video != null ==> unchanged(video`currentTime, video`duration, video`paused, video`volume)
      ensures video == null ==> isMuted == old(isMuted)
    {
      if video == null {
        return;
      }
      video.muted := !video.muted;
      isMuted := video.muted;
    }

    /** `handleVolumeChange([v])`: stores the new volume in the element and the
        state and sets `isMuted` exactly when it is 0; the element's own muted
        flag is left as it was. */
    method HandleVolumeChange(newVolume: real)
      requires 0.0 <= newVolume <= 1.0
      modifies this`volume, this`isMuted, video
      ensures video != null ==> video.volume == newVolume && volume == newVolume && isMuted == (newVolume == 0.0)
      ensures video != null ==> unchanged(video`currentTime, video`duration, video`paused, video`muted)
      ensures video == null ==> volume == old(volume) && isMuted == old(isMuted)
    {
      if video != null {
        video.volume := newVolume;
        volume := newVolume;
        isMuted := newVolume == 0.0;
      }
    }

    /** `skipForward`: ten seconds on, but never past the duration held in state. */
    method SkipForward()
      modifies video
      ensures video != null ==> video.currentTime == if old(video.currentTime) + 10 <= duration then old(video.currentTime) + 10 else duration
      ensures video != null ==> video.currentTime <= duration
      ensures video != null ==> unchanged(video`duration, video`paused, video`muted, video`volume)
    {
      if video != null {
        video.currentTime := if video.currentTime + 10 <= duration then video.currentTime + 10 else duration;
      }
    }

    /** `skipBackward`: ten seconds back, but never before the start. */
    method SkipBackward()
      modifies video
      ensures video != null ==> video.currentTime == if old(video.currentTime) >= 10 then old(video.currentTime) - 10 else 0
      ensures video != null ==> unchanged(video`duration, video`paused, video`muted, video`volume)
    {
      if video != null {
        video.currentTime := if video.currentTime >= 10 then video.currentTime - 10 else 0;
      }
    }

    /** The seek slider's `onValueChange([newValue])`. */
    method Seek(newValue: nat)
      modifies this`currentTime, video
      ensures currentTime == newValue
      ensures video != null ==> video.currentTime == newValue
      ensures video != null ==> unchanged(video`duration, video`paused, video`muted, video`volume)
    {
      if video != null {
        video.currentTime := newValue;
      }
      currentTime := newValue;
    }

    /** The `loadedmetadata` listener: copies the element's duration into state. */
    method OnLoadedMetadata()
      requires video != null
      modifies this`duration
      ensures duration == video.duration
    {
      duration := video.duration;
    }

    /** The `timeupdate` listener: copies the element's position into state. */
    method OnTimeUpdate()
      requires video != null
      modifies this`currentTime
      ensures currentTime == video.currentTime
    {
      currentTime := video.currentTime;
    }

    /** The end of `fetchVideoData`: shows the fetched video, recommends the
        others, clears `isPlaying` and puts the position at 0 in state and
        element. The element's paused flag is not touched. */
    method ShowVideo(videoData: Video, allVideos: seq<Video>)
      modifies this`currentVideo, this`recommendedVideos, this`isPlaying, this`currentTime, video
      ensures currentVideo == Some(videoData)
      ensures recommendedVideos == Recommended(allVideos, videoData)
      ensures !isPlaying && currentTime == 0
      ensures video != null ==> video.currentTime == 0
      ensures video != null ==> unchanged(video`duration, video`paused, video`muted, video`volume)
    {
      currentVideo := Some(videoData);
      recommendedVideos := Recommended(allVideos, videoData);
      isPlaying := false;
      currentTime := 0;
      if video != null {
        video.currentTime := 0;
      }
    }
  }

  /** Muting and then raising the volume shows the player as unmuted while the
      element stays muted: the volume handler does not touch `video.muted`. */
  method MuteThenRaiseVolume() returns (shownMuted: bool, elementMuted: bool)
    ensures !shownMuted && elementMuted
  {
    var element := new MediaElement(120);
    var player := new VideoPlayer(element);
    player.ToggleMute();
    player.HandleVolumeChange(0.5);
    shownMuted, elementMuted := player.isMuted, element.muted;
  }

  /** From a fresh player, skipping forward before the duration is known stays at 0. */
  method SkipBeforeMetadata() returns (position: nat)
    ensures position == 0
  {
    var element := new MediaElement(120);
    var player := new VideoPlayer(element);
    player.SkipForward();
    position := element.currentTime;
  }
}
