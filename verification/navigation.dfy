/** Lightbox navigation (`prevImage` and `nextImage`,
    assets/maugallery.js:93-149): the candidate list, the position of the
    displayed image in it, and the wrap-around step. Items are named by their
    position in document order. */
module Navigation {
  import opened Wrappers
  import opened Tags

  /** The item is an image showing `src`. */
  predicate Shows(item: Item, src: string) {
    item.isImage && item.src == src
  }

  /** No two images of the gallery share a source. */
  predicate DistinctImageSources(items: seq<Item>) {
    forall i, j :: 0 <= i < |items| && 0 <= j < |items| && i != j && items[i].isImage && items[j].isImage ==>
      items[i].src != items[j].src
  }

  /** `imagesCollection`: the images shown under tag `t`, in document order
      (every image under "all", otherwise the images whose tag equals `t`). */
  function Candidates(items: seq<Item>, t: string): (c: seq<nat>)
    ensures forall k :: 0 <= k < |c| ==> c[k] < |items|
    ensures forall k, l :: 0 <= k < l < |c| ==> c[k] < c[l]
  {
    if items == [] then []
    else
      var n := |items| - 1;
      var prev := Candidates(items[..n], t);
      if items[n].isImage && Matches(t, items[n]) then prev + [n] else prev
  }

  /** An item is a candidate exactly when it is an image the filter `t` shows. */
  lemma {:induction false} CandidatesAreShownImages(items: seq<Item>, t: string, i: nat)
    ensures i in Candidates(items, t) <==> i < |items| && items[i].isImage && Matches(t, items[i])
  {
    if items != [] {
      var n := |items| - 1;
      CandidatesAreShownImages(items[..n], t, i);
      if i < n {
        assert items[..n][i] == items[i];
      }
    }
  }

  /** `imagesCollection` built the way the source builds it: one pass over
      the column images, appending each one the active tag selects. */
  method CollectCandidates(items: seq<Item>, t: string) returns (c: seq<nat>)
    ensures c == Candidates(items, t)
  {
    c := [];
    var i := 0;
    if t == ALL_TAG {
      while i < |items|
        invariant 0 <= i <= |items|
        invariant c == Candidates(items[..i], t)
      {
        assert items[..i + 1][..i] == items[..i];
        if items[i].isImage {
          c := c + [i];
        }
        i := i + 1;
      }
    } else {
      while i < |items|
        invariant 0 <= i <= |items|
        invariant c == Candidates(items[..i], t)
      {
        assert items[..i + 1][..i] == items[..i];
        if items[i].isImage && items[i].tag == Some(t) {
          c := c + [i];
        }
        i := i + 1;
      }
    }
    assert items[..|items|] == items;
  }

  /** `activeImage`: the LAST image whose source is `src`, or none. */
  function ActiveImage(items: seq<Item>, src: string): (a: Option<nat>)
    ensures a.Some? ==> a.value < |items| && Shows(items[a.value], src)
    ensures a.Some? ==> forall j :: a.value < j < |items| ==> !Shows(items[j], src)
    ensures a.None? ==> forall j :: 0 <= j < |items| ==> !Shows(items[j], src)
  {
    if items == [] then None
    else
      var n := |items| - 1;
      if Shows(items[n], src) then Some(n) else ActiveImage(items[..n], src)
  }

  /** The scan of the source: every image is compared with the displayed
      source, and a later match replaces an earlier one. */
  method FindActiveImage(items: seq<Item>, src: string) returns (a: Option<nat>)
    ensures a == ActiveImage(items, src)
  {
    a := None;
    var i := 0;
    while i < |items|
      invariant 0 <= i <= |items|
      invariant a == ActiveImage(items[..i], src)
    {
      assert items[..i + 1][..i] == items[..i];
      if items[i].isImage && items[i].src == src {
        a := Some(i);
      }
      i := i + 1;
    }
    assert items[..|items|] == items;
  }

  /** `Array.prototype.indexOf`: the first position of `v` in `c`, or -1. */
  function IndexOf(c: seq<nat>, v: nat): (r: int)
    ensures -1 <= r < |c|
    ensures r >= 0 ==> c[r] == v && forall j :: 0 <= j < r ==> c[j] != v
    ensures r == -1 <==> v !in c
  {
    if c == [] then -1
    else if c[0] == v then 0
    else
      var r := IndexOf(c[1..], v);
      if r == -1 then -1 else r + 1
  }

  /** `imagesCollection.indexOf(activeImage)`, where a missing image is `null`,
      which no list of images contains. */
  function PositionOf(c: seq<nat>, a: Option<nat>): (r: int)
    ensures -1 <= r < |c|
    ensures a.None? ==> r == -1
    ensures a.Some? ==> (r == -1 <==> a.value !in c)
    ensures a.Some? && r >= 0 ==> c[r] == a.value && forall j :: 0 <= j < r ==> c[j] != a.value
  {
    match a
    case None => -1
    case Some(v) => IndexOf(c, v)
  }

  /** The index `nextImage` moves to from position `p` of a list of `len`. */
  function NextIndex(p: int, len: nat): (r: nat)
    requires len > 0 && -1 <= p < len
    ensures r < len
    ensures 0 <= p < len - 1 ==> r == p + 1
    ensures p == len - 1 ==> r == 0
    ensures p == -1 ==> r == 0
  {
    var index := p + 1;
    if index >= len then 0 else index
  }

  /** The index `prevImage` moves to from position `p` of a list of `len`. */
  function PrevIndex(p: int, len: nat): (r: nat)
    requires len > 0 && -1 <= p < len
    ensures r < len
    ensures p >= 1 ==> r == p - 1
    ensures p == 0 ==> r == len - 1
    ensures p == -1 ==> r == len - 1
  {
    var index := p - 1;
    if index < 0 then len - 1 else index
  }

  /** A step forward undoes a step back, and the other way round. */
  lemma NextPrevInverse(p: nat, len: nat)
    requires p < len
    ensures PrevIndex(NextIndex(p, len), len) == p
    ensures NextIndex(PrevIndex(p, len), len) == p
  {
  }

  /** The position reached by `m` steps forward from `p`. */
  function Forward(p: nat, len: nat, m: nat): (r: nat)
    requires p < len
    ensures r < len
  {
    if m == 0 then p else NextIndex(Forward(p, len, m - 1), len)
  }

  /** Within one lap, `m` steps forward from `p` land on `p + m`, wrapping
      past the end to the front. */
  lemma {:induction false} ForwardWraps(p: nat, len: nat, m: nat)
    requires p < len && m <= len
    ensures Forward(p, len, m) == if p + m < len then p + m else p + m - len
  {
    if m > 0 {
      ForwardWraps(p, len, m - 1);
    }
  }

  /** Position `j` is reached from `p` in fewer than `len` steps. */
  ghost predicate Reaches(p: nat, len: nat, j: nat)
    requires p < len
  {
    exists m :: 0 <= m < len && Forward(p, len, m) == j
  }

  /** Stepping forward cycles through the list: `len` steps come back to `p`,
      and every position is reached in fewer than `len` steps. */
  lemma ForwardCycles(p: nat, len: nat)
    requires p < len
    ensures Forward(p, len, len) == p
    ensures forall j :: 0 <= j < len ==> Reaches(p, len, j)
  {
    ForwardWraps(p, len, len);
    forall j | 0 <= j < len
      ensures Reaches(p, len, j)
    {
      var m := if p <= j then j - p else j + len - p;
      ForwardWraps(p, len, m);
    }
  }

  /** The source `nextImage` shows when `src` is displayed under tag `t`. */
  function NextSource(items: seq<Item>, t: string, src: string): (s: string)
    requires |Candidates(items, t)| > 0
    ensures exists k :: 0 <= k < |Candidates(items, t)| && s == items[Candidates(items, t)[k]].src
  {
    var c := Candidates(items, t);
    var k := NextIndex(PositionOf(c, ActiveImage(items, src)), |c|);
    items[c[k]].src
  }

  /** The source `prevImage` shows when `src` is displayed under tag `t`. */
  function PrevSource(items: seq<Item>, t: string, src: string): (s: string)
    requires |Candidates(items, t)| > 0
    ensures exists k :: 0 <= k < |Candidates(items, t)| && s == items[Candidates(items, t)[k]].src
  {
    var c := Candidates(items, t);
    var k := PrevIndex(PositionOf(c, ActiveImage(items, src)), |c|);
    items[c[k]].src
  }

  /** No image other than item `i` shows item `i`'s source. */
  ghost predicate UniqueSource(items: seq<Item>, i: nat)
    requires i < |items|
  {
    forall j :: 0 <= j < |items| && j != i ==> !Shows(items[j], items[i].src)
  }

  /** Distinct image sources make the source of every image unique. */
  lemma DistinctSourcesAreUnique(items: seq<Item>, i: nat)
    requires DistinctImageSources(items)
    requires i < |items| && items[i].isImage
    ensures UniqueSource(items, i)
  {
  }

  /** When no other image shares its source, the displayed candidate `k` is
      found at position `k`. */
  lemma PositionOfDisplayed(items: seq<Item>, t: string, c: seq<nat>, k: nat)
    requires c == Candidates(items, t)
    requires k < |c| && UniqueSource(items, c[k])
    ensures PositionOf(c, ActiveImage(items, items[c[k]].src)) == k
  {
    var i := c[k];
    CandidatesAreShownImages(items, t, i);
    assert Shows(items[i], items[i].src);
  }

  /** From the candidate at position `k`, next shows the one at `k + 1`, and
      the first one after the last. */
  lemma NextStep(items: seq<Item>, t: string, c: seq<nat>, k: nat, src: string)
    requires c == Candidates(items, t)
    requires k < |c| && src == items[c[k]].src && UniqueSource(items, c[k])
    ensures NextSource(items, t, src) == items[c[if k + 1 < |c| then k + 1 else 0]].src
  {
    PositionOfDisplayed(items, t, c, k);
  }

  /** From the candidate at position `k`, prev shows the one at `k - 1`, and
      the last one before the first. */
  lemma PrevStep(items: seq<Item>, t: string, c: seq<nat>, k: nat, src: string)
    requires c == Candidates(items, t)
    requires k < |c| && src == items[c[k]].src && UniqueSource(items, c[k])
    ensures PrevSource(items, t, src) == items[c[if k > 0 then k - 1 else |c| - 1]].src
  {
    PositionOfDisplayed(items, t, c, k);
  }

  /** With distinct image sources, next and prev step through the candidates
      in order from whichever one is displayed. */
  lemma DistinctSourcesStep(items: seq<Item>, t: string, c: seq<nat>, k: nat)
    requires DistinctImageSources(items)
    requires c == Candidates(items, t) && k < |c|
    ensures NextSource(items, t, items[c[k]].src) == items[c[if k + 1 < |c| then k + 1 else 0]].src
    ensures PrevSource(items, t, items[c[k]].src) == items[c[if k > 0 then k - 1 else |c| - 1]].src
  {
    CandidatesAreShownImages(items, t, c[k]);
    DistinctSourcesAreUnique(items, c[k]);
    NextStep(items, t, c, k, items[c[k]].src);
    PrevStep(items, t, c, k, items[c[k]].src);
  }

  /** Prev undoes next when both candidates involved have unique sources. */
  lemma PrevUndoesNext(items: seq<Item>, t: string, c: seq<nat>, k: nat, src: string)
    requires c == Candidates(items, t)
    requires k < |c| && src == items[c[k]].src && UniqueSource(items, c[k])
    requires UniqueSource(items, c[NextIndex(k, |c|)])
    ensures PrevSource(items, t, NextSource(items, t, src)) == src
  {
    NextStep(items, t, c, k, src);
    var k' := NextIndex(k, |c|);
    PrevStep(items, t, c, k', items[c[k']].src);
    NextPrevInverse(k, |c|);
  }

  /** When no candidate shows the displayed source (`indexOf` gives -1), next
      lands on the first candidate and prev on the last. */
  lemma NavigationFromUnlisted(items: seq<Item>, t: string, src: string)
    requires |Candidates(items, t)| > 0
    requires forall k :: 0 <= k < |Candidates(items, t)| ==> items[Candidates(items, t)[k]].src != src
    ensures var c := Candidates(items, t);
      && NextSource(items, t, src) == items[c[0]].src
      && PrevSource(items, t, src) == items[c[|c| - 1]].src
  {
    var c := Candidates(items, t);
    var a := ActiveImage(items, src);
    if a.Some? {
      assert a.value !in c;
    }
  }
}
