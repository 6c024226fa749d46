/**
 * The projects page (src/components/tabs/ProjectsPage.tsx): how a project's
 * media URL is classified and rendered, and the lightbox that a click on a
 * thumbnail opens.
 */
module ProjectsPage {
  import opened Wrappers
  import opened JsText

  /** The fields of a `projects` row that decide how its media is shown. */
  datatype Project = Project(id: int, title: Option<string>, mediaUrl: Option<string>)

  /**
   * `isVideoUrl` (lines 45-55): the lower-cased URL ends with a video file
   * extension or mentions a video host.
   */
  predicate IsVideoUrl(url: string) {
    var lower := ToLower(url);
    || EndsWith(lower, ".mp4") || EndsWith(lower, ".webm") || EndsWith(lower, ".mov")
    || Includes(lower, "youtube.com") || Includes(lower, "youtu.be") || Includes(lower, "vimeo.com")
  }

  /** The case-sensitive YouTube test of lines 246-247. */
  predicate IsYouTube(url: string) {
    Includes(url, "youtube.com") || Includes(url, "youtu.be")
  }

  /** An occurrence of a lower-case pattern survives lower-casing the text. */
  lemma IncludesAfterLower(s: string, p: string)
    requires (forall k :: 0 <= k < |p| ==> !IsUpper(p[k])) && Includes(s, p)
    ensures Includes(ToLower(s), p)
  {
    var i :| OccursAt(s, p, i);
    LowerWindow(s, p, i);
  }

  /** The same occurrence, found at the same position of the lower-cased text. */
  lemma LowerWindow(s: string, p: string, i: int)
    requires (forall k :: 0 <= k < |p| ==> !IsUpper(p[k])) && OccursAt(s, p, i)
    ensures OccursAt(ToLower(s), p, i)
  {
    var low := ToLower(s);
    var window, typed := low[i..i + |p|], s[i..i + |p|];
    assert forall k :: 0 <= k < |p| ==> window[k] == low[i + k] && typed[k] == s[i + k];
    assert forall k :: 0 <= k < |p| ==> window[k] == LowerChar(typed[k]) == typed[k];
    assert window == p;
  }

  /** `isVideoUrl` ignores letter case: URLs equal up to case are classified alike. */
  lemma IsVideoUrlIgnoresCase(a: string, b: string)
    requires ToLower(a) == ToLower(b)
    ensures IsVideoUrl(a) == IsVideoUrl(b)
  {
  }

  /** Lower-casing a URL first does not change its classification. */
  lemma IsVideoUrlOfLower(url: string)
    ensures IsVideoUrl(ToLower(url)) == IsVideoUrl(url)
  {
    ToLowerIdempotent(url);
  }

  /** The YouTube host patterns hold no upper-case letter. */
  lemma HostPatternsLower()
    ensures forall k :: 0 <= k < |"youtube.com"| ==> !IsUpper("youtube.com"[k])
    ensures forall k :: 0 <= k < |"youtu.be"| ==> !IsUpper("youtu.be"[k])
  {
  }

  /** Every URL the YouTube test accepts is also a video URL. */
  lemma YouTubeIsVideo(url: string)
    requires IsYouTube(url)
    ensures IsVideoUrl(url)
  {
    var lower := ToLower(url);
    HostPatternsLower();
    if Includes(url, "youtube.com") {
      IncludesAfterLower(url, "youtube.com");
      assert Includes(lower, "youtube.com");
    } else {
      IncludesAfterLower(url, "youtu.be");
      assert Includes(lower, "youtu.be");
    }
  }

  /** What lines 243-272 render for a project's media. */
  datatype MediaBlock =
    | NoMedia
    | WatchVideoLink(href: string)
    | VideoThumb(src: string, title: string)
    | ImageThumb(src: string, title: string)

  /** The media dispatch of lines 243-272. */
  function MediaBlockOf(p: Project): (r: MediaBlock)
    ensures r.NoMedia? <==> !Truthy(p.mediaUrl)
    ensures r.WatchVideoLink? ==> r.href == p.mediaUrl.value
    ensures (r.VideoThumb? || r.ImageThumb?) ==> r.src == p.mediaUrl.value && r.src != ""
  {
    if !Truthy(p.mediaUrl) then NoMedia
    else
      var url := p.mediaUrl.value;
      if IsVideoUrl(url) then
        if IsYouTube(url) then WatchVideoLink(url)
        else VideoThumb(url, p.title.GetOr("video"))
      else
        ImageThumb(url, p.title.GetOr("screenshot"))
  }

  /** A URL that is not a video URL is shown as an image thumbnail. */
  lemma NonVideoIsImage(p: Project)
    requires Truthy(p.mediaUrl) && !IsVideoUrl(p.mediaUrl.value)
    ensures MediaBlockOf(p) == ImageThumb(p.mediaUrl.value, p.title.GetOr("screenshot"))
  {
  }

  /** A URL naming YouTube as typed (case-sensitively) is always sent out as a link. */
  lemma YouTubeIsLink(p: Project)
    requires Truthy(p.mediaUrl) && IsYouTube(p.mediaUrl.value)
    ensures MediaBlockOf(p) == WatchVideoLink(p.mediaUrl.value)
  {
    YouTubeIsVideo(p.mediaUrl.value);
  }

  /** Vimeo links and video files without a lower-case YouTube host play inline. */
  lemma OtherVideoIsInline(p: Project)
    requires Truthy(p.mediaUrl) && IsVideoUrl(p.mediaUrl.value) && !IsYouTube(p.mediaUrl.value)
    ensures MediaBlockOf(p) == VideoThumb(p.mediaUrl.value, p.title.GetOr("video"))
  {
  }

  /** An upper-case YouTube URL passes `isVideoUrl` but not the case-sensitive test: it plays inline. */
  lemma UpperCaseYouTubeIsInline()
    ensures MediaBlockOf(Project(1, None, Some("YOUTU.BE"))) == VideoThumb("YOUTU.BE", "video")
  {
    UpperCaseYouTubeIsVideo();
    UpperCaseYouTubeIsNotYouTube();
    OtherVideoIsInline(Project(1, None, Some("YOUTU.BE")));
  }

  lemma UpperCaseYouTubeIsVideo()
    ensures IsVideoUrl("YOUTU.BE")
  {
    var url := "YOUTU.BE";
    var low := ToLower(url);
    assert low == "youtu.be" by {
      assert forall k :: 0 <= k < |url| ==> low[k] == LowerChar(url[k]);
    }
    assert OccursAt(low, "youtu.be", 0);
    assert Includes(low, "youtu.be");
  }

  lemma UpperCaseYouTubeIsNotYouTube()
    ensures !IsYouTube("YOUTU.BE")
  {
    var url := "YOUTU.BE";
    assert forall i :: OccursAt(url, "youtu.be", i) ==> i == 0;
    assert !OccursAt(url, "youtu.be", 0) by {
      assert url[0..8][0] != "youtu.be"[0];
    }
    assert forall i :: !OccursAt(url, "youtube.com", i);
  }

  /** A local `.mp4` file plays inline. */
  lemma Mp4IsInline()
    ensures MediaBlockOf(Project(1, Some("Demo"), Some("a.mp4"))) == VideoThumb("a.mp4", "Demo")
  {
    assert ToLower("a.mp4") == "a.mp4";
  }

  /** Empty media (`null` or `""`) renders nothing. */
  lemma NoUrlNoMedia(id: int, title: Option<string>)
    ensures MediaBlockOf(Project(id, title, None)) == NoMedia
    ensures MediaBlockOf(Project(id, title, Some(""))) == NoMedia
  {
  }

  /** What the lightbox of lines 279-346 shows: a `<video>` or an `<img>`, and the caption. */
  datatype Modal = Modal(isVideo: bool, src: string, caption: string)

  /** The lightbox state `isModalOpen`, `modalMedia`, `modalAlt` (lines 63-78). */
  class Lightbox {
    var isModalOpen: bool
    var modalMedia: Option<string>
    var modalAlt: string

    /** An open lightbox always has media to show. */
    ghost predicate Valid()
      reads this
    {
      isModalOpen ==> Truthy(modalMedia)
    }

    constructor ()
      ensures Valid()
      ensures !isModalOpen && modalMedia == None && modalAlt == ""
    {
      isModalOpen, modalMedia, modalAlt := false, None, "";
    }

    /** `openModalWithMedia(src, alt)`: a falsy `src` changes nothing. */
    method OpenWithMedia(src: Option<string>, alt: string)
      requires Valid()
      modifies this
      ensures Valid()
      ensures !Truthy(src) ==>
                isModalOpen == old(isModalOpen) && modalMedia == old(modalMedia) && modalAlt == old(modalAlt)
      ensures Truthy(src) ==> isModalOpen && modalMedia == src && modalAlt == alt
    {
      if !Truthy(src) {
        return;
      }
      modalMedia := src;
      modalAlt := alt;
      isModalOpen := true;
    }

    /** `closeModal`. */
    method Close()
      modifies this
      ensures Valid()
      ensures !isModalOpen && modalMedia == None && modalAlt == ""
    {
      isModalOpen := false;
      modalMedia := None;
      modalAlt := "";
    }

    /** A click on a project's media block: thumbnails open the lightbox, links leave it alone. */
    method Activate(block: MediaBlock)
      requires Valid()
      modifies this
      ensures Valid()
      ensures (block.VideoThumb? || block.ImageThumb?) && block.src != "" ==>
                isModalOpen && modalMedia == Some(block.src) && modalAlt == block.title
      ensures !(block.VideoThumb? || block.ImageThumb?) || block.src == "" ==>
                isModalOpen == old(isModalOpen) && modalMedia == old(modalMedia) && modalAlt == old(modalAlt)
    {
      match block
      case VideoThumb(src, title) => OpenWithMedia(Some(src), title);
      case ImageThumb(src, title) => OpenWithMedia(Some(src), title);
      case _ =>
    }

    /** The rendered lightbox (`isModalOpen && modalMedia && ...`). */
    function Shown(): (r: Option<Modal>)
      reads this
      ensures r.Some? <==> isModalOpen && Truthy(modalMedia)
      ensures r.Some? ==> r.value.src == modalMedia.value && r.value.caption == modalAlt
      ensures r.Some? ==> (r.value.isVideo <==> IsVideoUrl(modalMedia.value))
    {
      if isModalOpen && Truthy(modalMedia) then
        Some(Modal(IsVideoUrl(modalMedia.value), modalMedia.value, modalAlt))
      else None
    }

    /** In a valid state the lightbox is on screen exactly when it is open. */
    lemma ShownIffOpen()
      requires Valid()
      ensures Shown().Some? <==> isModalOpen
    {
    }
  }
}
