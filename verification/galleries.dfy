/** The four gallery pages: each pairs the shared lightbox with its own
    image list. Thumbnails carry the image's original position, so a
    thumbnail opens the lightbox on the right image whichever row shows it. */
module Galleries {
  import opened Optional
  import opened Lightbox

  datatype Orientation = Portrait | Landscape | Square

  /** An image of a gallery together with its position in the list. */
  datatype Thumb = Thumb(orientation: Orientation, index: nat)

  /** The orientation tags of each gallery, in list order. */
  const NewEcologiesImages: seq<Orientation> := [Portrait, Landscape, Portrait, Portrait]
  const MorphonicLabImages: seq<Orientation> :=
    [Landscape, Landscape, Landscape, Landscape, Landscape, Landscape]
  const ShipsImages: seq<Orientation> :=
    [Square, Square, Square, Square, Square, Square, Landscape]
  /** The sinks gallery has no orientation tags, only its nine images. */
  const SinksCount: nat := 9

  /** `images.map((image, index) => ({ ...image, index }))`. */
  function WithIndex(images: seq<Orientation>): (r: seq<Thumb>)
    ensures |r| == |images|
    ensures forall i :: 0 <= i < |r| ==> r[i].index == i && r[i].orientation == images[i]
  {
    seq(|images|, i requires 0 <= i < |images| => Thumb(images[i], i))
  }

  /** `.filter((image) => image.orientation === o)`. */
  function OfOrientation(thumbs: seq<Thumb>, o: Orientation): (r: seq<Thumb>)
    ensures |r| <= |thumbs|
    ensures forall i :: 0 <= i < |r| ==> r[i].orientation == o
  {
    if |thumbs| == 0 then []
    else if thumbs[0].orientation == o then [thumbs[0]] + OfOrientation(thumbs[1..], o)
    else OfOrientation(thumbs[1..], o)
  }

  /** The filter keeps exactly the thumbnails of orientation `o`. */
  lemma {:induction false} FilterMembers(thumbs: seq<Thumb>, o: Orientation)
    ensures forall t :: t in OfOrientation(thumbs, o) ==> t in thumbs && t.orientation == o
    ensures forall t :: t in thumbs && t.orientation == o ==> t in OfOrientation(thumbs, o)
    decreases |thumbs|
  {
    if |thumbs| > 0 {
      FilterMembers(thumbs[1..], o);
      assert thumbs == [thumbs[0]] + thumbs[1..];
    }
  }

  /** The thumbnails of orientation `o` of a gallery: each stands for an
      image of that orientation at its own position. */
  function Row(images: seq<Orientation>, o: Orientation): (r: seq<Thumb>)
    ensures |r| <= |images|
    ensures forall t :: t in r ==> t.orientation == o && t.index < |images| && images[t.index] == o
  {
    var w := WithIndex(images);
    FilterMembers(w, o);
    OfOrientation(w, o)
  }

  /** The positions a row of thumbnails stands for. */
  function Indices(thumbs: seq<Thumb>): set<nat> {
    set t | t in thumbs :: t.index
  }

  /** Indices of a filtered list strictly increase: the row keeps list order. */
  lemma {:induction false} FilterOrdered(thumbs: seq<Thumb>, o: Orientation)
    requires forall i, j :: 0 <= i < j < |thumbs| ==> thumbs[i].index < thumbs[j].index
    ensures var r := OfOrientation(thumbs, o);
      forall i, j :: 0 <= i < j < |r| ==> r[i].index < r[j].index
    decreases |thumbs|
  {
    if |thumbs| > 0 {
      var rest := thumbs[1..];
      FilterOrdered(rest, o);
      var r := OfOrientation(thumbs, o);
      if thumbs[0].orientation == o {
        var q := OfOrientation(rest, o);
        assert r == [thumbs[0]] + q;
        assert forall j :: 0 < j < |r| ==> r[j] == q[j - 1];
        forall j | 0 < j < |r|
          ensures r[0].index < r[j].index
        {
          FilterMembers(rest, o);
          assert r[j] in q;
        }
      } else {
        assert r == OfOrientation(rest, o);
      }
    }
  }

  /** A row holds exactly the images of its orientation, each with its
      original position, in list order. */
  lemma RowContents(images: seq<Orientation>, o: Orientation)
    ensures forall t :: t in Row(images, o) ==> t.index < |images| && images[t.index] == o
    ensures forall i :: 0 <= i < |images| && images[i] == o ==> Thumb(o, i) in Row(images, o)
    ensures Indices(Row(images, o)) == set i | 0 <= i < |images| && images[i] == o
    ensures var r := Row(images, o);
      forall i, j :: 0 <= i < j < |r| ==> r[i].index < r[j].index
  {
    var w := WithIndex(images);
    assert forall i, j :: 0 <= i < j < |w| ==> w[i].index < w[j].index;
    FilterOrdered(w, o);
    var r := Row(images, o);
    assert r == OfOrientation(w, o);
    FilterMembers(w, o);
    assert forall i, j :: 0 <= i < j < |r| ==> r[i].index < r[j].index;
    forall i | 0 <= i < |images| && images[i] == o
      ensures Thumb(o, i) in Row(images, o)
    {
      assert w[i] == Thumb(o, i);
    }
  }

  /** Two rows split a gallery tagged only portrait or landscape: every
      position is in exactly one of them. */
  lemma RowsPartition(images: seq<Orientation>)
    requires forall i :: 0 <= i < |images| ==> images[i] != Square
    ensures var p, l := Indices(Row(images, Portrait)), Indices(Row(images, Landscape));
      && p !! l
      && (forall i :: 0 <= i < |images| ==> i in p || i in l)
      && (forall i :: i in p || i in l ==> i < |images|)
  {
    RowContents(images, Portrait);
    RowContents(images, Landscape);
  }

  /** Clicking a thumbnail opens the lightbox on an image of that
      thumbnail's orientation. */
  lemma ClickOpensOwnImage(images: seq<Orientation>, o: Orientation, t: Thumb)
    requires t in Row(images, o)
    ensures InRange(Open(t.index), |images|)
    ensures images[Open(t.index).value] == o
  {
    RowContents(images, o);
  }

  /** The glitching-portrait page: the portrait row shows images 0, 2 and 3
      in that order, the landscape row image 1, and the lightbox wraps after
      the fourth image. */
  lemma NewEcologiesGallery()
    ensures Row(NewEcologiesImages, Portrait)
         == [Thumb(Portrait, 0), Thumb(Portrait, 2), Thumb(Portrait, 3)]
    ensures Row(NewEcologiesImages, Landscape) == [Thumb(Landscape, 1)]
    ensures Next(Some(3), |NewEcologiesImages|) == Some(0)
    ensures Prev(Some(0), |NewEcologiesImages|) == Some(3)
  {
    var w := WithIndex(NewEcologiesImages);
    var t0, t1, t2, t3 := Thumb(Portrait, 0), Thumb(Landscape, 1), Thumb(Portrait, 2), Thumb(Portrait, 3);
    assert w == [t0, t1, t2, t3];
    assert w[1..] == [t1, t2, t3] && w[2..] == [t2, t3] && w[3..] == [t3] && w[4..] == [];
    assert OfOrientation(w[3..], Portrait) == [t3];
    assert OfOrientation(w[3..], Landscape) == [];
    assert OfOrientation(w[1..], Portrait) == [t2, t3];
    assert OfOrientation(w[1..], Landscape) == [t1];
  }

  /** Images of other orientations before position `k` do not reach the
      row. */
  lemma {:induction false} FilterSkips(thumbs: seq<Thumb>, o: Orientation, k: nat)
    requires k <= |thumbs|
    requires forall i :: 0 <= i < k ==> thumbs[i].orientation != o
    ensures OfOrientation(thumbs, o) == OfOrientation(thumbs[k..], o)
    decreases k
  {
    if k > 0 {
      FilterSkips(thumbs[1..], o, k - 1);
      assert thumbs[1..][k - 1..] == thumbs[k..];
    }
  }

  /** When every image has orientation `o`, the row is the whole list. */
  lemma {:induction false} FilterKeepsAll(thumbs: seq<Thumb>, o: Orientation)
    requires forall i :: 0 <= i < |thumbs| ==> thumbs[i].orientation == o
    ensures OfOrientation(thumbs, o) == thumbs
    decreases |thumbs|
  {
    if |thumbs| > 0 {
      FilterKeepsAll(thumbs[1..], o);
    }
  }

  /** The morphonic lab page: all six images sit in the landscape row, in
      order, and the portrait row is empty; the arrows wrap around and do
      nothing while the lightbox is closed. */
  lemma MorphonicLabGallery()
    ensures Row(MorphonicLabImages, Portrait) == []
    ensures Row(MorphonicLabImages, Landscape) == WithIndex(MorphonicLabImages)
    ensures |Row(MorphonicLabImages, Landscape)| == 6
    ensures Next(Some(5), |MorphonicLabImages|) == Some(0)
    ensures HandleKey(Some(0), "ArrowLeft", |MorphonicLabImages|) == Some(5)
    ensures HandleKey(None, "ArrowRight", |MorphonicLabImages|) == None
  {
    var w := WithIndex(MorphonicLabImages);
    FilterKeepsAll(w, Landscape);
    FilterSkips(w, Portrait, 6);
  }

  /** The ships page shows one list in order, the thumbnail at position `k`
      opening image `k`; the last image is the landscape one, the right arrow
      wraps from it to the first, and Escape closes. */
  lemma ShipsGallery(k: nat)
    requires k < |ShipsImages|
    ensures WithIndex(ShipsImages)[k].index == k
    ensures InRange(Open(WithIndex(ShipsImages)[k].index), |ShipsImages|)
    ensures Row(ShipsImages, Landscape) == [Thumb(Landscape, 6)]
    ensures HandleKey(Some(6), "ArrowRight", |ShipsImages|) == Some(0)
    ensures HandleKey(Some(k), "Escape", |ShipsImages|) == None
  {
    var w := WithIndex(ShipsImages);
    FilterSkips(w, Landscape, 6);
    assert w[6..] == [Thumb(Landscape, 6)];
  }

  /** The sinks page: thumbnail `k` opens image `k`; from the last image next
      returns to the first, and the left arrow steps back with wrap-around. */
  lemma SinksGallery(k: nat)
    requires k < SinksCount
    ensures InRange(Open(k), SinksCount) && Open(k) == Some(k)
    ensures Next(Some(SinksCount - 1), SinksCount) == Some(0)
    ensures Prev(Some(0), SinksCount) == Some(SinksCount - 1)
    ensures HandleKey(Open(k), "ArrowLeft", SinksCount) == Some(if k == 0 then SinksCount - 1 else k - 1)
  {
  }
}
