# Mau gallery, modelled in Dafny

The mau gallery is a client-side widget. It wraps the items of a gallery
container in a responsive grid, collects the distinct `data-gallery-tag`
values into a tag bar, and filters the columns by the clicked tag. It can also
open a lightbox whose previous/next controls step through the images the
active tag selects.

This project models the logic under the DOM plumbing, over an abstract
gallery. A gallery is a sequence of items, and each item has an optional tag,
an "is an image" flag and a source string. The modules are:

- `Columns` (columns.dfy): the grid classes of a column wrapper. A number `n`
  gives `col-ceil(12/n)`. An object gives one class per truthy key, in the
  order xs, sm, md, lg, xl. A value that is neither a number nor an object,
  or an object with no truthy key, is an error and the item stays unwrapped.
  The class text is the breakpoint prefix followed by the span's decimal
  digits.
- `Tags` (tags.dfy): the item record, the tag collection in first-seen order,
  the tag bar ("all" first, then one entry per tag) and its active mark, and
  the filter predicate.
- `Navigation` (navigation.dfy): the candidate list of the lightbox, the
  `indexOf` lookup of the displayed image, and the wrap-around step of next
  and previous.
- `Lightbox` (lightbox.dfy): opening the viewer on an item, both as written
  and as evidently intended (see Findings).
- `Widget` (gallery.dfy): the `Gallery` class. Its constructor is the set-up
  loop of `mauGallery`. `Filter`, `Open`, `Next` and `Prev` are the click
  handlers. `activeMarks` (which tag-bar entries carry `active-tag`) and
  `visible` (whether each item's column is displayed) are arrays updated in
  place.
- `Scenario` (scenario.dfy): a four-item gallery of images tagged a, b, a
  and none, with two columns.

Behaviour worth stating outright:

- The lightbox candidates are the images inside a column wrapper
  (`.item-column img`), not every gallery image. So an unwrapped gallery has
  no candidates.
- A displayed source that matches no candidate has a defined outcome.
  `indexOf` gives -1, so next shows the first candidate and previous the last.
- The displayed image is the last image with that source.
- Next and previous dereference the active tag-bar entry and index the
  candidate list without checks. So `Next` and `Prev` require a tag bar, a
  wrapped gallery and a non-empty candidate list. Without them the source
  throws a TypeError.
- In the four-item gallery, filtering by `b` displays only item 2, the one
  item tagged `b`.

## Model

| member | source | states |
|---|---|---|
| Columns.Span | assets/maugallery.js:50 | `ceil(12/n)` for `n >= 1`: the least `s` with `s*n >= 12`, always in 1..12 |
| Columns.Decimal | assets/maugallery.js:50 | the printed span is a non-empty string of digits with no leading zero |
| Columns.DecimalRoundTrip | assets/maugallery.js:50 | reading the printed digits back gives the span |
| Columns.ClassName | assets/maugallery.js:52-56 | a class name is the breakpoint's prefix followed by digits whose value is the span, with no leading zero |
| Columns.KeyedClasses | assets/maugallery.js:52-56 | one class per truthy key, each spanning `ceil(12/key)`, none for a falsy key, in breakpoint order |
| Columns.ColumnClasses | assets/maugallery.js:47-69 | a number gives exactly `[col-ceil(12/n)]`; an object gives one class per truthy key in xs..xl order; a non-number non-object is the unsupported-type error; an object with no truthy key is the no-class error; every class spans 1..12 |
| Tags.MatchesCases | assets/maugallery.js:211 | the "all" entry shows every item; any other tag shows exactly the items whose tag equals it, so an untagged item shows only under "all" |
| Tags.CollectTags | assets/maugallery.js:21-29 | the collection has no duplicates and no empty tag |
| Tags.CollectTagsMembership | assets/maugallery.js:25-28 | a tag is collected if and only if some item carries it as a truthy attribute |
| Tags.CollectTagsInFirstSeenOrder | assets/maugallery.js:21-29 | the collection equals the tags of the first-seen items, in document order |
| Tags.ShowItemTags | assets/maugallery.js:179-194 | "bottom" and "top" insert a bar of "all" followed by the collected tags, at the end or the start; any other position inserts nothing |
| Tags.TagBarListsEachTagOnce | assets/maugallery.js:180-183 | every tag an item carries has exactly one entry after "all" |
| Tags.InitialMarks | assets/maugallery.js:180 | a new tag bar has exactly one active entry, the "all" entry |
| Navigation.Candidates | assets/maugallery.js:102-113 | the candidate list holds valid item positions, strictly increasing (document order, no repeats) |
| Navigation.CandidatesAreShownImages | assets/maugallery.js:131-142 | an item is a candidate if and only if it is an image and the active tag is "all" or equals its tag, the same test the filter uses |
| Navigation.CollectCandidates | assets/maugallery.js:131-142 | the append loop, in both branches ("all" and a tag), builds exactly the candidate list |
| Navigation.ActiveImage | assets/maugallery.js:94-99 | the result is the last image showing the source, or none when no image shows it |
| Navigation.FindActiveImage | assets/maugallery.js:123-128 | the overwriting scan finds exactly that last match |
| Navigation.IndexOf | assets/maugallery.js:144 | the first position of the value, or -1 if and only if it is absent |
| Navigation.PositionOf | assets/maugallery.js:115 | a missing image (`null`) has position -1; a present image has its first position in the list, or -1 exactly when it is not in the list |
| Navigation.NextIndex | assets/maugallery.js:144-147 | next goes from `p` to `p+1`, from the last position to 0, and from -1 (not found) to 0 |
| Navigation.PrevIndex | assets/maugallery.js:115-118 | previous goes from `p` to `p-1`, from 0 to the last position, and from -1 (not found) to the last position |
| Navigation.NextPrevInverse | assets/maugallery.js:144-147 | a step forward and a step back cancel, in either order |
| Navigation.ForwardWraps | assets/maugallery.js:144-147 | `m <= len` steps forward from `p` reach `p+m`, or `p+m-len` past the end |
| Navigation.ForwardCycles | assets/maugallery.js:144-147 | `len` steps forward return to the start, and every candidate is reached in fewer than `len` steps |
| Navigation.NextSource | assets/maugallery.js:122-149 | next always displays the source of some candidate |
| Navigation.PrevSource | assets/maugallery.js:93-120 | previous always displays the source of some candidate |
| Navigation.DistinctSourcesAreUnique | assets/maugallery.js:95-99 | when no two images share a source, every image's source identifies it |
| Navigation.PositionOfDisplayed | assets/maugallery.js:144 | when no other image shares its source, the displayed candidate `k` is found at position `k` |
| Navigation.NextStep | assets/maugallery.js:144-148 | from candidate `k`, next shows candidate `k+1`, and the first candidate after the last |
| Navigation.PrevStep | assets/maugallery.js:115-119 | from candidate `k`, previous shows candidate `k-1`, and the last candidate before the first |
| Navigation.DistinctSourcesStep | assets/maugallery.js:95-147 | when no two images share a source, next moves from the displayed candidate to the following one (the first after the last) and prev to the preceding one (the last before the first) |
| Navigation.PrevUndoesNext | assets/maugallery.js:115-147 | previous after next returns to the displayed candidate |
| Navigation.NavigationFromUnlisted | assets/maugallery.js:144-147 | when no candidate shows the displayed source, next shows the first candidate and previous the last |
| Lightbox.ElementId | assets/maugallery.js:154 | the modal's id is never empty: the configured id when it is truthy, otherwise the default id |
| Lightbox.LookupKey | assets/maugallery.js:86 | the key the lookup uses equals the modal's id exactly when the configured id is truthy |
| Lightbox.OpenedAsWritten | assets/maugallery.js:85-91 | as written, a click opens the viewer on the item's source only when the configured lightbox id is truthy; otherwise nothing changes |
| Lightbox.DefaultIdNeverOpens | assets/maugallery.js:5 | with the default `lightboxId: null`, a click leaves the viewer closed |
| Lightbox.Opened | assets/maugallery.js:220-223 | as intended, a click on an image with the lightbox enabled shows the viewer with that image's source; any other click changes nothing |
| Lightbox.AsWrittenAgreesWithTruthyId | assets/maugallery.js:154 | the written and the intended opening agree on an opening click if and only if the id is truthy |
| Widget.DefaultsNeverOpen | assets/maugallery.js:2-9 | with the default options, a click on any item leaves a closed viewer closed |
| Widget.Gallery.constructor | assets/maugallery.js:11-36 | every item gets one column wrapper with the configured classes or none; the tags are collected in first-seen order when `showTags`; the tag bar is inserted with only "all" active; all columns are displayed; the viewer is closed |
| Widget.Gallery.CreateRowWrapper | assets/maugallery.js:38-44 | a row wrapper is added only when there is none, so at least one exists afterwards |
| Widget.Gallery.FindActiveEntry | assets/maugallery.js:202 | the lookup of the active entry finds the one entry marked active |
| Widget.Gallery.Filter | assets/maugallery.js:196-216 | a click on the active entry changes nothing; otherwise the click marks the clicked entry as the only active one and displays exactly the columns whose item matches its tag; unwrapped items are left alone |
| Widget.Gallery.MoveActiveMark | assets/maugallery.js:202-203 | the active mark moves to the clicked entry and remains unique |
| Widget.Gallery.ShowColumns | assets/maugallery.js:205-215 | each column is displayed if and only if its item matches the tag; no item is added, removed or reordered |
| Widget.Gallery.Open | assets/maugallery.js:220-223 | the viewer becomes what the intended opening gives |
| Widget.Gallery.Next | assets/maugallery.js:122-149 | the displayed source becomes the next source under the active tag; nothing else changes |
| Widget.Gallery.Prev | assets/maugallery.js:93-120 | the displayed source becomes the previous source under the active tag; nothing else changes |
| Scenario.FourItemsTags | assets/maugallery.js:21-29 | items tagged a, b, a and none give the collection [a, b] |
| Scenario.FourItemsCandidates | assets/maugallery.js:131-142 | under "all" the four images are the candidates in order, and the first one's source identifies it |

## Left out

- DOM construction: the markup and styles of the lightbox and of the tag bar, `img-fluid` marking of images, moving items into the row wrapper, and `style.display` on the container.
- Event wiring (`addListeners`): each handler is a method that a caller invokes; listener dispatch by class is not modelled.
- The `DOMContentLoaded` bootstrap and its hard-coded configuration; merging the options with the defaults (`Widget.DEFAULTS` records them).
- Document-wide lookups: one gallery per page is assumed, so "the" row wrapper, active entry and lightbox image are this gallery's.
- `console.error`: an error is a `Failure` result or a "nothing inserted" outcome, not a message.
- Columns.ColumnClasses: a numeric count must be at least 1, and object keys are naturals (0 = absent). Other values are not modelled. In the source, the same division applies to a count and to each truthy key. A count of 0 gives `col-Infinity`. A value between 0 and 1 gives a span over 12 (`col-24` for 0.5). Other fractional values give ordinary spans (`col-5` for 2.5, `col-1` above 12) that `Count(n: nat)` cannot express. A value from -12 to -1 gives a negative span (`col--2` for -5), and a value below -12 gives `col-0`, since `Math.ceil` yields -0. A key is converted to a number first: `true` gives `col-12`, the string `"3"` gives `col-4`, an empty array gives `col-Infinity`, and a key that does not convert to a number gives `col-NaN`.
- `columns: null`: `typeof null` is "object", so reading `columns.xs` throws a TypeError. That aborts the set-up loop, so no later item is wrapped and no tag bar is inserted. `ColumnsConfig` cannot express null, and this abort is not modelled.
- The `show` class is the only part of the modal's visibility that is modelled; closing the modal belongs to the host page's modal code.
- HTML injection through a tag value in the tag bar markup.
- Nested images: the `.item-column img` lookup used by next and prev also finds an `<img>` nested inside a gallery item that is not itself an image (for example `<a class="gallery-item"><img></a>`). An `Item` is either an image or not, so such nested images are not modelled.
- Navigation.NextStep: like `PrevStep` and `PrevUndoesNext`, it assumes that no other image shares the displayed candidate's source, and `PrevUndoesNext` assumes the same of the candidate it steps to. With a shared source the last match is the displayed image. `NextSource`, `PrevSource` and `ActiveImage` model that case exactly, but no step theorem is stated for it.

## Findings

| source | as written | input that shows it | evidently intended | confidence | as-written member | corrected member |
|---|---|---|---|---|---|---|
| assets/maugallery.js:86 | `openLightBox` looks up `options.lightboxId`. `createLightBox` names the modal `galleryLightbox` when that id is falsy, so the lookup (`"null"` or `""`) finds nothing. | the default options (`lightboxId: null`) and a click on an image item | open the modal that was created, whatever id it was given | high; not executed | Lightbox.OpenedAsWritten | Lightbox.Opened |
