/** Gallery items, the ordered tag collection built while the gallery is set
    up (assets/maugallery.js:21-29), the tag bar (assets/maugallery.js:179-194)
    and the filter predicate (assets/maugallery.js:205-215). */
module Tags {
  import opened Wrappers

  /** A gallery item: its `data-gallery-tag` attribute (`None` when the
      attribute is missing), whether it is an `IMG` element, and its source. */
  datatype Item = Item(tag: Option<string>, isImage: bool, src: string)

  /** The `data-images-toggle` value of the tag-bar entry that shows everything. */
  const ALL_TAG := "all"

  /** The tag attribute is present and truthy (the empty string is falsy). */
  predicate HasTag(item: Item) {
    item.tag.Some? && item.tag.value != ""
  }

  /** Whether filtering by `t` shows `item`: `t` is the "all" entry or equals
      the item's tag attribute. */
  predicate Matches(t: string, item: Item) {
    t == ALL_TAG || item.tag == Some(t)
  }

  /** The "all" entry shows every item; any other tag shows exactly the items
      carrying it, so an untagged item shows only under "all". */
  lemma MatchesCases(t: string, item: Item)
    ensures t == ALL_TAG ==> Matches(t, item)
    ensures item.tag.None? ==> (Matches(t, item) <==> t == ALL_TAG)
    ensures t != ALL_TAG ==> (Matches(t, item) <==> item.tag == Some(t))
  {
  }

  predicate Distinct(s: seq<string>) {
    forall i, j :: 0 <= i < j < |s| ==> s[i] != s[j]
  }

  /** `tagsCollection` after the loop has visited `items`: each truthy tag is
      pushed unless the collection already includes it. */
  function CollectTags(items: seq<Item>): (tags: seq<string>)
    ensures Distinct(tags)
    ensures forall k :: 0 <= k < |tags| ==> tags[k] != ""
    ensures |tags| <= |items|
  {
    if items == [] then []
    else
      var prev := CollectTags(items[..|items| - 1]);
      var item := items[|items| - 1];
      if HasTag(item) && item.tag.value !in prev then prev + [item.tag.value] else prev
  }

  /** A tag is collected exactly when some item carries it. */
  lemma {:induction false} CollectTagsMembership(items: seq<Item>, t: string)
    ensures t in CollectTags(items) <==> exists i :: 0 <= i < |items| && HasTag(items[i]) && items[i].tag.value == t
  {
    if items != [] {
      var n := |items| - 1;
      var prefix := items[..n];
      CollectTagsMembership(prefix, t);
      assert forall i :: 0 <= i < n ==> prefix[i] == items[i];
      if t in CollectTags(items) && t !in CollectTags(prefix) {
        assert HasTag(items[n]) && items[n].tag.value == t;
      }
    }
  }

  /** Item `i` carries a truthy tag that no earlier item carries. */
  ghost predicate IsFirstSeen(items: seq<Item>, i: nat)
    requires i < |items|
  {
    HasTag(items[i]) && forall j :: 0 <= j < i ==> items[j].tag != items[i].tag
  }

  /** Reference definition: the tags of the first-seen items, in document order. */
  ghost function FirstSeen(items: seq<Item>): seq<string> {
    if items == [] then []
    else
      var n := |items| - 1;
      FirstSeen(items[..n]) + if IsFirstSeen(items, n) then [items[n].tag.value] else []
  }

  /** The collection lists the distinct tags in the order each is first seen. */
  lemma {:induction false} CollectTagsInFirstSeenOrder(items: seq<Item>)
    ensures CollectTags(items) == FirstSeen(items)
  {
    if items != [] {
      var n := |items| - 1;
      var prefix := items[..n];
      CollectTagsInFirstSeenOrder(prefix);
      if HasTag(items[n]) {
        var t := items[n].tag.value;
        CollectTagsMembership(prefix, t);
        assert forall j :: 0 <= j < n ==> prefix[j] == items[j];
        assert t in CollectTags(prefix) <==> !IsFirstSeen(items, n);
      }
    }
  }

  /** The tag bar: the `data-images-toggle` values of its entries, and whether
      it is inserted at the start of the gallery or at its end. */
  datatype TagBar = TagBar(entries: seq<string>, atTop: bool)

  /** `showItemTags`: the "all" entry, then one entry per collected tag, placed
      at the top or the bottom; an unknown position inserts nothing. */
  function ShowItemTags(tags: seq<string>, position: string): (r: Option<TagBar>)
    ensures r.Some? <==> position == "bottom" || position == "top"
    ensures r.Some? ==> r.value.entries == [ALL_TAG] + tags && r.value.atTop == (position == "top")
  {
    var entries := [ALL_TAG] + tags;
    if position == "bottom" then Some(TagBar(entries, false))
    else if position == "top" then Some(TagBar(entries, true))
    else None
  }

  /** The tag bar of a gallery offers every tag carried by some item exactly
      once, after the leading "all" entry. */
  lemma TagBarListsEachTagOnce(items: seq<Item>, position: string, i: nat)
    requires ShowItemTags(CollectTags(items), position).Some?
    requires i < |items| && HasTag(items[i])
    ensures var entries := ShowItemTags(CollectTags(items), position).value.entries;
      exists k :: 1 <= k < |entries| && entries[k] == items[i].tag.value &&
        forall l :: 1 <= l < |entries| && entries[l] == items[i].tag.value ==> l == k
  {
    var tags := CollectTags(items);
    var entries := ShowItemTags(tags, position).value.entries;
    CollectTagsMembership(items, items[i].tag.value);
    var m :| 0 <= m < |tags| && tags[m] == items[i].tag.value;
    assert entries[m + 1] == tags[m];
    forall l | 1 <= l < |entries| && entries[l] == items[i].tag.value
      ensures l == m + 1
    {
      assert entries[l] == tags[l - 1];
    }
  }

  /** Entry `k` is the one and only entry marked active. */
  predicate OnlyActive(marks: seq<bool>, k: nat) {
    k < |marks| && forall j :: 0 <= j < |marks| ==> (marks[j] <==> j == k)
  }

  /** The marks of a freshly inserted tag bar: only the "all" entry is active. */
  function InitialMarks(n: nat): (marks: seq<bool>)
    requires n >= 1
    ensures |marks| == n && OnlyActive(marks, 0)
  {
    seq(n, j => j == 0)
  }
}
