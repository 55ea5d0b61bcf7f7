/** One gallery widget (`mauGallery` and its handlers,
    assets/maugallery.js:11-36, 196-236): its items, the column wrappers made
    at set-up, the tag bar with its active entry, the visibility of each
    column, and the lightbox viewer. Each click handler is a method. */
module Widget {
  import opened Wrappers
  import opened Columns
  import opened Tags
  import opened Navigation
  import opened Lightbox

  /** The options of a gallery, after merging with the defaults. */
  datatype Options = Options(
    columns: ColumnsConfig,
    lightBox: bool,
    lightboxId: Option<string>,
    showTags: bool,
    tagsPosition: string,
    navigation: bool)

  /** The defaults every option falls back to. */
  const DEFAULTS := Options(Count(3), true, None, true, "bottom", true)

  /** Under the default options a click on any item leaves a closed viewer
      closed: the default `lightboxId` is null, so the lookup finds nothing. */
  lemma DefaultsNeverOpen(item: Item, src: string)
    ensures OpenedAsWritten(DEFAULTS.lightBox, DEFAULTS.lightboxId, item, Viewer(src, false)) == Viewer(src, false)
  {
    DefaultIdNeverOpens(item, src);
  }

  class Gallery {
    /** The gallery items, in document order. */
    const items: seq<Item>
    const options: Options
    /** The classes of the column wrapper around each item; `None` when the
        item was left unwrapped. */
    const columnOf: seq<Option<seq<GridClass>>>
    /** `tagsCollection`. */
    const tags: seq<string>
    /** The inserted tag bar, if any. */
    const tagBar: Option<TagBar>
    /** Which tag-bar entries carry the `active-tag` class. */
    const activeMarks: array<bool>
    /** Whether each item's column is displayed. */
    const visible: array<bool>
    /** The number of row wrappers in the container. */
    var rowWrappers: nat
    var viewer: Viewer
    /** The entry that carries the `active-tag` class. */
    ghost var activeIndex: nat

    ghost predicate Valid()
      reads this, activeMarks, visible
    {
      && ValidColumns(options.columns)
      && |columnOf| == |items|
      && (forall i :: 0 <= i < |items| ==> columnOf[i] == ColumnClasses(options.columns).ToOption())
      && tags == (if options.showTags then CollectTags(items) else [])
      && tagBar == (if options.showTags then ShowItemTags(tags, options.tagsPosition) else None)
      && visible.Length == |items|
      && activeMarks != visible
      && activeMarks.Length == (if tagBar.Some? then |tagBar.value.entries| else 0)
      && (tagBar.Some? ==> OnlyActive(activeMarks[..], activeIndex))
      && rowWrappers >= 1
    }

    /** Every item sits in a column wrapper. */
    predicate Wrapped()
      reads this
      requires ValidColumns(options.columns)
    {
      ColumnClasses(options.columns).Success?
    }

    /** The `data-images-toggle` value of the active entry. */
    ghost function ActiveTag(): string
      reads this, activeMarks, visible
      requires Valid() && tagBar.Some?
    {
      tagBar.value.entries[activeIndex]
    }

    /** `mauGallery`: wrap every item in a column, collect the tags in
        first-seen order, insert the tag bar. `rowWrappers` is the number of
        row wrappers the container already holds. */
    constructor (items: seq<Item>, options: Options, rowWrappers: nat)
      requires ValidColumns(options.columns)
      ensures Valid()
      ensures this.items == items && this.options == options
      ensures this.rowWrappers == if rowWrappers == 0 then 1 else rowWrappers
      ensures tagBar.Some? ==> activeMarks[..] == InitialMarks(activeMarks.Length) && activeIndex == 0
      ensures forall i :: 0 <= i < visible.Length ==> visible[i]
      ensures viewer == Viewer("", false)
      ensures fresh(activeMarks) && fresh(visible)
    {
      var wrappers: seq<Option<seq<GridClass>>> := [];
      var collected: seq<string> := [];
      var i := 0;
      while i < |items|
        invariant 0 <= i <= |items|
        invariant |wrappers| == i
        invariant forall m :: 0 <= m < i ==> wrappers[m] == ColumnClasses(options.columns).ToOption()
        invariant collected == if options.showTags then CollectTags(items[..i]) else []
      {
        assert items[..i + 1][..i] == items[..i];
        wrappers := wrappers + [ColumnClasses(options.columns).ToOption()];
        var theTag := items[i].tag;
        if options.showTags && HasTag(items[i]) && theTag.value !in collected {
          collected := collected + [theTag.value];
        }
        i := i + 1;
      }
      assert items[..|items|] == items;
      var bar := if options.showTags then ShowItemTags(collected, options.tagsPosition) else None;
      var entries := if bar.Some? then |bar.value.entries| else 0;
      this.items := items;
      this.options := options;
      columnOf := wrappers;
      tags := collected;
      tagBar := bar;
      activeMarks := new bool[entries](j => j == 0);
      visible := new bool[|items|](_ => true);
      this.rowWrappers := rowWrappers;
      viewer := Viewer("", false);
      activeIndex := 0;
      new;
      CreateRowWrapper();
      assert bar.Some? ==> activeMarks[..] == InitialMarks(entries);
    }

    /** `createRowWrapper`: add a row wrapper only when there is none. */
    method CreateRowWrapper()
      modifies this`rowWrappers
      ensures rowWrappers >= 1
      ensures rowWrappers == if old(rowWrappers) == 0 then 1 else old(rowWrappers)
    {
      if rowWrappers == 0 {
        rowWrappers := 1;
      }
    }

    /** `document.querySelector(".active-tag")`: the first marked entry. */
    method FindActiveEntry() returns (j: nat)
      requires Valid() && tagBar.Some?
      ensures j == activeIndex
    {
      j := 0;
      while !activeMarks[j]
        invariant j <= activeIndex
        decreases activeIndex - j
      {
        j := j + 1;
      }
    }

    /** `filterByTag`, on a click on tag-bar entry `k`. */
    method Filter(k: nat)
      requires Valid() && tagBar.Some? && k < |tagBar.value.entries|
      modifies activeMarks, visible, this`activeIndex
      ensures Valid()
      ensures old(activeMarks[k]) ==>
        activeIndex == old(activeIndex) && activeMarks[..] == old(activeMarks[..]) && visible[..] == old(visible[..])
      ensures !old(activeMarks[k]) ==> activeIndex == k && OnlyActive(activeMarks[..], k)
      ensures !old(activeMarks[k]) && Wrapped() ==>
        forall i :: 0 <= i < |items| ==> visible[i] == Matches(tagBar.value.entries[k], items[i])
      ensures !old(activeMarks[k]) && !Wrapped() ==> visible[..] == old(visible[..])
    {
      if activeMarks[k] {
        return;
      }
      MoveActiveMark(k);
      ShowColumns(tagBar.value.entries[k]);
    }

    /** Take the active mark off the active entry and put it on entry `k`. */
    method MoveActiveMark(k: nat)
      requires Valid() && tagBar.Some? && k < |tagBar.value.entries|
      modifies activeMarks, this`activeIndex
      ensures Valid()
      ensures activeIndex == k
    {
      var j := FindActiveEntry();
      activeMarks[j] := false;
      activeMarks[k] := true;
      activeIndex := k;
      assert OnlyActive(activeMarks[..], k);
    }

    /** Display the column of every item the filter `tag` matches and hide
        the other columns; an item without a column is left alone. */
    method ShowColumns(tag: string)
      requires Valid()
      modifies visible
      ensures Valid()
      ensures Wrapped() ==> forall i :: 0 <= i < |items| ==> visible[i] == Matches(tag, items[i])
      ensures !Wrapped() ==> visible[..] == old(visible[..])
    {
      var i := 0;
      while i < |items|
        invariant 0 <= i <= |items|
        invariant forall m :: 0 <= m < i ==> visible[m] == if Wrapped() then Matches(tag, items[m]) else old(visible[m])
        invariant forall m :: i <= m < |items| ==> visible[m] == old(visible[m])
      {
        if columnOf[i].Some? {
          visible[i] := false;
          if tag == ALL_TAG || items[i].tag == Some(tag) {
            visible[i] := true;
          }
        }
        i := i + 1;
      }
    }

    /** The click handler of item `i`. */
    method Open(i: nat)
      requires Valid() && i < |items|
      modifies this`viewer
      ensures Valid()
      ensures viewer == Opened(options.lightBox, items[i], old(viewer))
    {
      if options.lightBox && items[i].isImage {
        viewer := Viewer(items[i].src, true);
      }
    }

    /** `nextImage`, on a click on the next control. */
    method Next()
      requires Valid()
      requires options.lightBox && options.navigation
      requires tagBar.Some? && Wrapped()
      requires |Candidates(items, ActiveTag())| > 0
      modifies this`viewer
      ensures Valid()
      ensures viewer == old(viewer).(src := NextSource(items, ActiveTag(), old(viewer.src)))
    {
      var activeImage := FindActiveImage(items, viewer.src);
      var j := FindActiveEntry();
      var activeTag := tagBar.value.entries[j];
      var imagesCollection := CollectCandidates(items, activeTag);
      var index := NextIndex(PositionOf(imagesCollection, activeImage), |imagesCollection|);
      viewer := viewer.(src := items[imagesCollection[index]].src);
    }

    /** `prevImage`, on a click on the previous control. */
    method Prev()
      requires Valid()
      requires options.lightBox && options.navigation
      requires tagBar.Some? && Wrapped()
      requires |Candidates(items, ActiveTag())| > 0
      modifies this`viewer
      ensures Valid()
      ensures viewer == old(viewer).(src := PrevSource(items, ActiveTag(), old(viewer.src)))
    {
      var activeImage := FindActiveImage(items, viewer.src);
      var j := FindActiveEntry();
      var activeTag := tagBar.value.entries[j];
      var imagesCollection := CollectCandidates(items, activeTag);
      var index := PrevIndex(PositionOf(imagesCollection, activeImage), |imagesCollection|);
      viewer := viewer.(src := items[imagesCollection[index]].src);
    }
  }
}
