/**
 * components/evidence/evidence-thumbnail.tsx: the embed address of a piece
 * of evidence and the order in which the providers are tried. The URL
 * parser (`new URL`) and `encodeURIComponent` are passed in: `parse` gives
 * a link's host name and path, or None when the constructor throws.
 */
module EvidenceThumbnail {
  import opened Text
  import Utils

  datatype UrlParts = UrlParts(hostname: string, pathname: string)

  /** `pathname.split("/").filter(Boolean)`. */
  function Segments(pathname: string): (r: seq<string>)
    ensures forall i :: 0 <= i < |r| ==> r[i] != "" && '/' !in r[i]
  {
    var r := NonEmpty(Split(pathname, c => c == '/'));
    assert forall i :: 0 <= i < |r| ==> '/' !in r[i] by {
      forall i | 0 <= i < |r|
        ensures '/' !in r[i]
      {
        var ps := Split(pathname, c => c == '/');
        assert r[i] in ps;
        var k :| 0 <= k < |ps| && ps[k] == r[i];
        assert forall j :: 0 <= j < |ps[k]| ==> ps[k][j] != '/';
      }
    }
    r
  }

  const YouTubeEmbedPrefix := "https://www.youtube.com/embed/"

  /** `getYoutubeEmbedUrl`. */
  function YoutubeEmbedUrl(url: string): (r: Option<string>)
    ensures r.Some? <==> Utils.YouTubeVideoId(url).Some?
    ensures r.Some? ==> StartsWith(r.value, YouTubeEmbedPrefix) && |r.value| == |YouTubeEmbedPrefix| + 11
  {
    match Utils.YouTubeVideoId(url)
    case None => None
    case Some(id) =>
      var e := YouTubeEmbedPrefix + id;
      assert e[..|YouTubeEmbedPrefix|] == YouTubeEmbedPrefix;
      Some(e)
  }

  /** The embed address carries the id it was built from: reading it back
      gives the same id, for ids made of the usual id characters. */
  lemma YoutubeEmbedKeepsId(url: string)
    requires Utils.YouTubeVideoId(url).Some? && Utils.IsVideoIdText(Utils.YouTubeVideoId(url).value)
    ensures Utils.YouTubeVideoId(YoutubeEmbedUrl(url).value) == Utils.YouTubeVideoId(url)
  {
    Utils.EmbedLinkId(Utils.YouTubeVideoId(url).value);
  }

  datatype AllstarClipData = AllstarClipData(thumbnailUrl: string, embedUrl: string)

  const AllstarThumbPrefix := "https://mediacdn.allstar.gg/655bdb1a94c4ae53019032e6/thumbs/"
  const AllstarEmbedPrefix := "https://allstar.gg/iframe?clip="

  /** The clip id of an Allstar link: the segment after a first segment
      "clip". The host is not looked at. */
  function AllstarClipId(parsed: Option<UrlParts>): (r: Option<string>)
    ensures r.Some? <==> parsed.Some? && |Segments(parsed.value.pathname)| >= 2 && Segments(parsed.value.pathname)[0] == "clip"
    ensures r.Some? ==> r.value == Segments(parsed.value.pathname)[1] && r.value != ""
  {
    if parsed.None? then None
    else
      var parts := Segments(parsed.value.pathname);
      if |parts| >= 1 && parts[0] == "clip" && |parts| >= 2 then Some(parts[1]) else None
  }

  /** `getAllstarClipData`: both addresses name the clip id. */
  function AllstarClip(parsed: Option<UrlParts>): (r: Option<AllstarClipData>)
    ensures r.Some? <==> AllstarClipId(parsed).Some?
  {
    match AllstarClipId(parsed)
    case None => None
    case Some(clipId) =>
      Some(AllstarClipData(
        AllstarThumbPrefix + clipId + "_thumb.jpg",
        AllstarEmbedPrefix + clipId + "&autoplay=false"))
  }

  /** The clip id can be read back from both addresses of a clip. */
  lemma AllstarAddressesCarryId(parsed: Option<UrlParts>)
    requires AllstarClipId(parsed).Some?
    ensures var id := AllstarClipId(parsed).value;
      var d := AllstarClip(parsed).value;
      && d.embedUrl[|AllstarEmbedPrefix|..|AllstarEmbedPrefix| + |id|] == id
      && d.thumbnailUrl[|AllstarThumbPrefix|..|AllstarThumbPrefix| + |id|] == id
      && Contains(d.embedUrl, id) && Contains(d.thumbnailUrl, id + "_thumb.jpg")
  {
    var id := AllstarClipId(parsed).value;
    var d := AllstarClip(parsed).value;
    OccursAfter(AllstarEmbedPrefix, id, "&autoplay=false");
    ContainsWhereOccurs(d.embedUrl, id, |AllstarEmbedPrefix|);
    OccursAfter(AllstarThumbPrefix, id, "_thumb.jpg");
    OccursAfter(AllstarThumbPrefix, id + "_thumb.jpg", "");
    assert d.thumbnailUrl == AllstarThumbPrefix + (id + "_thumb.jpg") + "";
    ContainsWhereOccurs(d.thumbnailUrl, id + "_thumb.jpg", |AllstarThumbPrefix|);
  }

  const TwitframePrefix := "https://twitframe.com/show?url="

  /** `getTwitterEmbedUrl`. */
  function TwitterEmbedUrl(url: string, encode: string -> string): (r: Option<string>)
    ensures r.Some? <==> Contains(url, "twitter.com")
    ensures r.Some? ==> StartsWith(r.value, TwitframePrefix) && r.value[|TwitframePrefix|..] == encode(url)
  {
    if Contains(url, "twitter.com") then
      var e := TwitframePrefix + encode(url);
      assert e[..|TwitframePrefix|] == TwitframePrefix;
      Some(e)
    else None
  }

  const StreamablePrefix := "https://streamable.com/e/"

  /** The Streamable video id: the second segment after a first segment "e",
      else the first segment, else none. */
  function StreamableId(parts: seq<string>): (r: string)
    ensures |parts| >= 2 && parts[0] == "e" ==> r == parts[1]
    ensures !(|parts| >= 2 && parts[0] == "e") && |parts| >= 1 ==> r == parts[0]
    ensures parts == [] ==> r == ""
  {
    if |parts| >= 1 && parts[0] == "e" && |parts| >= 2 then parts[1]
    else if |parts| >= 1 then parts[0]
    else ""
  }

  /** `getStreamableEmbedUrl`: only for hosts containing "streamable.com". */
  function StreamableEmbedUrl(parsed: Option<UrlParts>): (r: Option<string>)
    ensures r.Some? <==> parsed.Some? && Contains(parsed.value.hostname, "streamable.com") && Segments(parsed.value.pathname) != []
    ensures r.Some? ==> r.value == StreamablePrefix + StreamableId(Segments(parsed.value.pathname))
  {
    if parsed.None? || !Contains(parsed.value.hostname, "streamable.com") then None
    else
      var videoId := StreamableId(Segments(parsed.value.pathname));
      if videoId != "" then Some(StreamablePrefix + videoId) else None
  }

  /** The path of the embed address splits into "e" and the id. */
  lemma {:induction false} EmbedPathSegments(id: string)
    requires id != "" && '/' !in id
    ensures Segments("/e/" + id) == ["e", id]
  {
    var isSlash := (c: char) => c == '/';
    assert forall i :: 0 <= i < |id| ==> !isSlash(id[i]);
    SplitWithoutSeparator(id, isSlash);
    var s := "/e/" + id;
    assert s[1..] == "e/" + id;
    assert s[1..][1..] == "/" + id;
    assert ("/" + id)[1..] == id;
    assert Split("/" + id, isSlash) == ["", id];
    assert ("e/" + id)[0] == 'e' && ("e/" + id)[1..] == "/" + id;
    assert Split("e/" + id, isSlash) == [['e'] + ""] + [id];
    assert ['e'] + "" == "e";
    assert Split("e/" + id, isSlash) == ["e", id];
    assert s[0] == '/' && isSlash(s[0]);
    assert Split(s, isSlash) == [""] + Split("e/" + id, isSlash);
    assert ["", "e", id][1..] == ["e", id] && ["e", id][1..] == [id] && [id][1..] == [];
    assert NonEmpty([id]) == [id];
    assert NonEmpty(["e", id]) == ["e", id];
    assert Split(s, isSlash) == ["", "e", id];
    assert NonEmpty(["", "e", id]) == ["e", id];
    assert Segments(s) == NonEmpty(Split(s, isSlash));
  }

  /** Fed its own output, whose path a URL parser reports as "/e/<id>", the
      function returns that output again. */
  lemma StreamableIdempotent(parsed: Option<UrlParts>)
    requires StreamableEmbedUrl(parsed).Some?
    ensures var out := StreamableEmbedUrl(parsed).value;
      var id := out[|StreamablePrefix|..];
      StreamableEmbedUrl(Some(UrlParts("streamable.com", "/e/" + id))) == Some(out)
  {
    var out := StreamableEmbedUrl(parsed).value;
    var id := StreamableId(Segments(parsed.value.pathname));
    assert out[|StreamablePrefix|..] == id;
    assert id in Segments(parsed.value.pathname);
    EmbedPathSegments(id);
    assert OccursAt("streamable.com", "streamable.com", 0);
    ContainsIff("streamable.com", "streamable.com");
  }

  /** What the component renders for a piece of evidence. */
  datatype Thumbnail = Frame(src: string) | FallbackLink(href: string) | Image(src: string) | Nothing

  /** `EvidenceThumbnail`: a video tries YouTube, Allstar, Twitter and
      Streamable in that order and falls back to a link; a screenshot is shown
      as an image; anything else renders nothing. */
  function ThumbnailFor(evidenceType: string, url: string, parse: string -> Option<UrlParts>,
                        encode: string -> string): (r: Thumbnail)
    ensures evidenceType != "video" && evidenceType != "screenshot" ==> r == Nothing
    ensures evidenceType == "screenshot" ==> r == Image(url)
    ensures evidenceType == "video" ==> r.Frame? || r == FallbackLink(url)
    ensures r.FallbackLink? <==>
      evidenceType == "video" && YoutubeEmbedUrl(url).None? && AllstarClip(parse(url)).None?
      && TwitterEmbedUrl(url, encode).None? && StreamableEmbedUrl(parse(url)).None?
  {
    if evidenceType == "video" then
      match YoutubeEmbedUrl(url)
      case Some(e) => Frame(e)
      case None =>
        match AllstarClip(parse(url))
        case Some(d) => Frame(d.embedUrl)
        case None =>
          match TwitterEmbedUrl(url, encode)
          case Some(e) => Frame(e)
          case None =>
            match StreamableEmbedUrl(parse(url))
            case Some(e) => Frame(e)
            case None => FallbackLink(url)
    else if evidenceType == "screenshot" then Image(url)
    else Nothing
  }

  /** A video link with a YouTube id is embedded from YouTube whatever the
      other providers would say. */
  lemma YouTubeComesFirst(url: string, parse: string -> Option<UrlParts>, encode: string -> string)
    requires Utils.YouTubeVideoId(url).Some?
    ensures ThumbnailFor("video", url, parse, encode) == Frame(YouTubeEmbedPrefix + Utils.YouTubeVideoId(url).value)
  {
  }

  /** A tweet link is embedded through Twitframe only when neither YouTube
      nor an Allstar clip path claims it first. */
  lemma TwitterAfterAllstar(url: string, parse: string -> Option<UrlParts>, encode: string -> string)
    requires Contains(url, "twitter.com")
    ensures ThumbnailFor("video", url, parse, encode) == Frame(TwitframePrefix + encode(url))
        <== Utils.YouTubeVideoId(url).None? && AllstarClipId(parse(url)).None?
    ensures AllstarClipId(parse(url)).Some? && Utils.YouTubeVideoId(url).None? ==>
      ThumbnailFor("video", url, parse, encode) == Frame(AllstarClip(parse(url)).value.embedUrl)
  {
  }
}
