/**
 * The projects hover panel (src/components/tabs/TabPanels/HoverProjectsPanel.tsx).
 * The video and external-host tests arrive as props from a parent that is not
 * part of this model, so they are parameters here.
 */
module HoverProjectsPanel {
  import opened Wrappers
  import opened JsText

  /** The fields of a `HoverProject` (types.ts) that decide its media block. */
  datatype HoverProject = HoverProject(id: int, title: Option<string>, mediaUrl: Option<string>)

  /** `canPlay` (line 23): the project has a media URL and it is a video. */
  predicate CanPlay(p: HoverProject, isVideoUrl: string -> bool) {
    Truthy(p.mediaUrl) && isVideoUrl(p.mediaUrl.value)
  }

  /** `isExternal` (lines 24-26). */
  predicate IsExternal(p: HoverProject, isExternalVideoHost: string -> bool) {
    if Truthy(p.mediaUrl) then isExternalVideoHost(p.mediaUrl.value) else false
  }

  /** The media block of lines 76-142: a play tile, a screenshot `<img>` with its alt text, or nothing. */
  datatype Media = NoMediaBlock | PlayTile | Screenshot(src: string, alt: string)

  function MediaOf(p: HoverProject, isVideoUrl: string -> bool): (r: Media)
    ensures r.NoMediaBlock? <==> !Truthy(p.mediaUrl)
    ensures r.PlayTile? <==> CanPlay(p, isVideoUrl)
    ensures r.Screenshot? ==> r.src == p.mediaUrl.value && r.alt == p.title.GetOr("project screenshot")
  {
    if !Truthy(p.mediaUrl) then NoMediaBlock
    else if CanPlay(p, isVideoUrl) then PlayTile
    else Screenshot(p.mediaUrl.value, p.title.GetOr("project screenshot"))
  }

  /** What a click on the media block does: open a new window or call `openModalWithMedia`. */
  datatype Click = OpenWindow(url: string) | OpenModal(src: string, alt: string)

  /** The click handlers of lines 85-96 and 126-131; `None` when there is no block to click. */
  function ClickOutcome(p: HoverProject, isVideoUrl: string -> bool, isExternalVideoHost: string -> bool)
    : (r: Option<Click>)
    ensures r.None? <==> MediaOf(p, isVideoUrl).NoMediaBlock?
    ensures r.Some? && r.value.OpenWindow? ==> r.value.url == p.mediaUrl.value
    ensures r.Some? && r.value.OpenModal? ==> r.value.src == p.mediaUrl.value && r.value.src != ""
  {
    if !Truthy(p.mediaUrl) then None
    else if CanPlay(p, isVideoUrl) then
      if IsExternal(p, isExternalVideoHost) then Some(OpenWindow(p.mediaUrl.value))
      else Some(OpenModal(p.mediaUrl.value, p.title.GetOr("video")))
    else Some(OpenModal(p.mediaUrl.value, p.title.GetOr("screenshot")))
  }

  /** No `media_url` (or an empty one): no media block, nothing to click, not external. */
  lemma NoUrlNoBlock(p: HoverProject, isVideoUrl: string -> bool, isExternalVideoHost: string -> bool)
    requires !Truthy(p.mediaUrl)
    ensures MediaOf(p, isVideoUrl) == NoMediaBlock
    ensures ClickOutcome(p, isVideoUrl, isExternalVideoHost) == None
    ensures !IsExternal(p, isExternalVideoHost) && !CanPlay(p, isVideoUrl)
  {
  }

  /** A playable external video opens a new window and never the modal. */
  lemma ExternalVideoOpensWindow(p: HoverProject, isVideoUrl: string -> bool, isExternalVideoHost: string -> bool)
    requires CanPlay(p, isVideoUrl) && IsExternal(p, isExternalVideoHost)
    ensures ClickOutcome(p, isVideoUrl, isExternalVideoHost) == Some(OpenWindow(p.mediaUrl.value))
  {
  }

  /** A playable video on no external host opens the modal, captioned `title ?? "video"`. */
  lemma InlineVideoOpensModal(p: HoverProject, isVideoUrl: string -> bool, isExternalVideoHost: string -> bool)
    requires CanPlay(p, isVideoUrl) && !IsExternal(p, isExternalVideoHost)
    ensures ClickOutcome(p, isVideoUrl, isExternalVideoHost)
         == Some(OpenModal(p.mediaUrl.value, p.title.GetOr("video")))
  {
  }

  /**
   * A non-video URL opens the modal captioned `title ?? "screenshot"`, whatever
   * the host test says; the image itself carries the alt text `title ?? "project screenshot"`.
   */
  lemma ImageOpensModal(p: HoverProject, isVideoUrl: string -> bool, isExternalVideoHost: string -> bool)
    requires Truthy(p.mediaUrl) && !isVideoUrl(p.mediaUrl.value)
    ensures MediaOf(p, isVideoUrl) == Screenshot(p.mediaUrl.value, p.title.GetOr("project screenshot"))
    ensures ClickOutcome(p, isVideoUrl, isExternalVideoHost)
         == Some(OpenModal(p.mediaUrl.value, p.title.GetOr("screenshot")))
  {
  }
}
