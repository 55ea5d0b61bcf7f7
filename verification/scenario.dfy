/** A four-item gallery: images tagged a, b, a and untagged, two columns,
    tag bar at the top. */
module Scenario {
  import opened Wrappers
  import opened Columns
  import opened Tags
  import opened Navigation
  import opened Lightbox
  import opened Widget

  const FOUR_ITEMS := [
    Item(Some("a"), true, "1.jpg"),
    Item(Some("b"), true, "2.jpg"),
    Item(Some("a"), true, "3.jpg"),
    Item(None, true, "4.jpg")]

  lemma FourItemsTags()
    ensures CollectTags(FOUR_ITEMS) == ["a", "b"]
  {
    var items := FOUR_ITEMS;
    assert items[..2][..1] == items[..1];
    assert items[..3][..2] == items[..2];
    assert items[..4][..3] == items[..3];
    assert CollectTags(items[..2]) == ["a", "b"];
    assert items[..4] == items;
  }

  lemma FourItemsCandidates()
    ensures Candidates(FOUR_ITEMS, ALL_TAG) == [0, 1, 2, 3]
    ensures ActiveImage(FOUR_ITEMS, "1.jpg") == Some(0)
  {
    var items := FOUR_ITEMS;
    assert items[..2][..1] == items[..1];
    assert items[..3][..2] == items[..2];
    assert items[..4][..3] == items[..3];
    assert Candidates(items[..1], ALL_TAG) == [0];
    assert Candidates(items[..2], ALL_TAG) == [0, 1];
    assert Candidates(items[..3], ALL_TAG) == [0, 1, 2];
    assert items[..4] == items;
  }

  /** Two columns give wrappers spanning six units; opening the first
      image and stepping forward under "all" shows the second image. */
  method FourItemsOpenNext() {
    var options := Options(Count(2), true, Some("lb"), true, "top", true);
    var g := new Gallery(FOUR_ITEMS, options, 0);
    assert ClassName(GridClass(Base, Span(2))) == "col-6";
    assert g.columnOf[0] == Some([GridClass(Base, 6)]);
    FourItemsTags();
    assert g.tagBar == Some(TagBar(["all"] + ["a", "b"], true));
    g.Open(0);
    assert g.viewer == Viewer("1.jpg", true);
    FourItemsCandidates();
    g.Next();
    assert g.viewer == Viewer("2.jpg", true);
  }

  /** Filtering by "b" leaves only the second column displayed. */
  method FourItemsFilter() {
    var options := Options(Count(2), true, Some("lb"), true, "top", true);
    var g := new Gallery(FOUR_ITEMS, options, 0);
    FourItemsTags();
    assert g.tagBar.value.entries == ["all", "a", "b"];
    g.Filter(2);
    assert g.visible[..] == [false, true, false, false];
  }
}
