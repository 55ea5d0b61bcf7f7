/** Opening the lightbox on a gallery item (`openLightBox`, guarded by the
    click handler, assets/maugallery.js:85-91 and 220-224), and how the id of
    the lightbox element is chosen (assets/maugallery.js:154). */
module Lightbox {
  import opened Wrappers
  import opened Tags

  /** The state of the modal viewer: the source of its image and whether it
      carries the `show` class. A freshly created viewer has no source. */
  datatype Viewer = Viewer(src: string, shown: bool)

  const DEFAULT_LIGHTBOX_ID := "galleryLightbox"

  /** The id `createLightBox` gives the modal: the configured id when it is
      truthy, the default id otherwise. */
  function ElementId(lightboxId: Option<string>): (id: string)
    ensures id != ""
    ensures id == DEFAULT_LIGHTBOX_ID || lightboxId == Some(id)
    ensures lightboxId.Some? && lightboxId.value != "" ==> id == lightboxId.value
  {
    if lightboxId.Some? && lightboxId.value != "" then lightboxId.value else DEFAULT_LIGHTBOX_ID
  }

  /** The string `document.getElementById` receives: `null` becomes "null". */
  function LookupKey(lightboxId: Option<string>): (key: string)
    ensures key == ElementId(lightboxId) <==> lightboxId.Some? && lightboxId.value != ""
  {
    match lightboxId
    case None => "null"
    case Some(id) => id
  }

  /** Opening as the source does it: the handler passes `options.lightboxId`
      to the lookup, which finds the modal only when that is the id the modal
      was created with. So a viewer is opened only when the configured id is
      truthy; with a missing or empty id nothing happens. */
  function OpenedAsWritten(enabled: bool, lightboxId: Option<string>, item: Item, v: Viewer): (r: Viewer)
    ensures enabled && item.isImage && lightboxId.Some? && lightboxId.value != "" ==> r == Viewer(item.src, true)
    ensures !(enabled && item.isImage && lightboxId.Some? && lightboxId.value != "") ==> r == v
  {
    if enabled && item.isImage && LookupKey(lightboxId) == ElementId(lightboxId) then Viewer(item.src, true) else v
  }

  /** With the default configuration (`lightboxId: null`) a click on an image
      never opens the viewer as written. */
  lemma DefaultIdNeverOpens(item: Item, src: string)
    ensures OpenedAsWritten(true, None, item, Viewer(src, false)) == Viewer(src, false)
  {
  }

  /** Opening as intended: the modal that was created is the one updated. A
      click on an image item, with the lightbox enabled, shows that item's
      source; any other click changes nothing. */
  function Opened(enabled: bool, item: Item, v: Viewer): (r: Viewer)
    ensures enabled && item.isImage ==> r.shown && r.src == item.src
    ensures !(enabled && item.isImage) ==> r == v
  {
    if enabled && item.isImage then Viewer(item.src, true) else v
  }

  /** The two agree exactly when the configured id is truthy or the click
      would not open anything anyway. */
  lemma AsWrittenAgreesWithTruthyId(enabled: bool, lightboxId: Option<string>, item: Item, v: Viewer)
    requires enabled && item.isImage && v != Viewer(item.src, true)
    ensures OpenedAsWritten(enabled, lightboxId, item, v) == Opened(enabled, item, v) <==>
      lightboxId.Some? && lightboxId.value != ""
  {
  }
}
