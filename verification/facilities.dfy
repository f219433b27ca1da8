/** The facilities tab of the college page
    (src/pages/college-details/components/FacilitiesTab.jsx): the category
    filter, the feature list truncation and the image gallery's index. */
module Facilities {
  import opened Wrappers
  import opened Seqs
  import Recommendations

  datatype Facility = Facility(id: int, name: string, category: string, images: seq<string>, features: seq<string>)

  function InCategory(category: string): Facility -> bool
  {
    (f: Facility) => f.category == category
  }

  /** `filteredFacilities`: everything for 'all', else an exact category match. */
  function FilterFacilities(facilities: seq<Facility>, category: string): (r: seq<Facility>)
    ensures category == "all" ==> r == facilities
    ensures category != "all" ==> forall x :: x in r ==> x in facilities && x.category == category
    ensures category != "all" ==> forall i :: 0 <= i < |facilities| && facilities[i].category == category ==> facilities[i] in r
    ensures IsSubseq(r, facilities)
  {
    if category == "all" then
      SubseqRefl(facilities);
      facilities
    else
      FilterIsSubseq(facilities, InCategory(category));
      Filter(facilities, InCategory(category))
  }

  /** `filteredFacilities.find(f => f.images && f.images.length > 0)`. */
  function GalleryFacility(facilities: seq<Facility>): (r: Option<Facility>)
    ensures r.Some? ==> |r.value.images| > 0
    ensures IsFirstGallery(facilities, r)
    decreases |facilities|
  {
    if |facilities| == 0 then None
    else if |facilities[0].images| > 0 then Some(facilities[0])
    else
      var r := GalleryFacility(facilities[1..]);
      FirstGalleryShift(facilities, r);
      r
  }

  /** `r` is the first facility with images, or none when no facility has any. */
  predicate IsFirstGallery(facilities: seq<Facility>, r: Option<Facility>)
  {
    && (r.None? <==> forall i :: 0 <= i < |facilities| ==> |facilities[i].images| == 0)
    && (r.Some? ==> exists i :: 0 <= i < |facilities| && facilities[i] == r.value
                               && forall j :: 0 <= j < i ==> |facilities[j].images| == 0)
  }

  /** The first facility with images in a list whose head has none is the
      first one in the rest of the list. */
  lemma FirstGalleryShift(facilities: seq<Facility>, r: Option<Facility>)
    requires |facilities| > 0 && |facilities[0].images| == 0
    requires IsFirstGallery(facilities[1..], r)
    ensures IsFirstGallery(facilities, r)
  {
    assert forall i :: 0 < i < |facilities| ==> facilities[i] == facilities[1..][i - 1];
    if r.Some? {
      var i :| 0 <= i < |facilities[1..]| && facilities[1..][i] == r.value
               && forall j :: 0 <= j < i ==> |facilities[1..][j].images| == 0;
      assert facilities[i + 1] == r.value;
      assert forall j :: 0 <= j < i + 1 ==> |facilities[j].images| == 0 by {
        forall j | 0 < j < i + 1
          ensures |facilities[j].images| == 0
        {
          assert facilities[j] == facilities[1..][j - 1];
        }
      }
    }
  }

  /** `nextImage`: nothing without an open modal or without a facility that
      has images; otherwise one step forward, wrapping at the image count of
      the first such facility. */
  function NextImage(index: Option<nat>, facilities: seq<Facility>): (r: Option<nat>)
    ensures index.None? ==> r.None?
    ensures GalleryFacility(facilities).None? ==> r == index
    ensures index.Some? && GalleryFacility(facilities).Some? ==>
              var n := |GalleryFacility(facilities).value.images|;
              r.Some? && r.value < n
              && (index.value < n ==> r.value == Recommendations.NextIndex(index.value, n))
  {
    match index
    case None => None
    case Some(i) =>
      match GalleryFacility(facilities)
      case None => index
      case Some(f) => Some((i + 1) % |f.images|)
  }

  /** `prevImage`: index 0 wraps to the last image, anything else steps back. */
  function PrevImage(index: Option<nat>, facilities: seq<Facility>): (r: Option<nat>)
    ensures index.None? ==> r.None?
    ensures GalleryFacility(facilities).None? ==> r == index
    ensures index.Some? && GalleryFacility(facilities).Some? ==>
              var n := |GalleryFacility(facilities).value.images|;
              r.Some? && (index.value < n ==> r.value == Recommendations.PrevIndex(index.value, n))
  {
    match index
    case None => None
    case Some(i) =>
      match GalleryFacility(facilities)
      case None => index
      case Some(f) => Some(if i == 0 then |f.images| - 1 else i - 1)
  }

  /** Inside the gallery, previous undoes next and next undoes previous. */
  lemma PrevNextImage(i: nat, facilities: seq<Facility>)
    requires GalleryFacility(facilities).Some? && i < |GalleryFacility(facilities).value.images|
    ensures PrevImage(NextImage(Some(i), facilities), facilities) == Some(i)
    ensures NextImage(PrevImage(Some(i), facilities), facilities) == Some(i)
  {
    var n := |GalleryFacility(facilities).value.images|;
    Recommendations.PrevNextInverse(i, n);
  }

  /** `closeImageModal`: no image is selected any more. */
  function CloseImageModal(index: Option<nat>): (r: Option<nat>)
    ensures r.None?
    ensures NextImage(r, []) == r
  {
    None
  }

  /** The gallery button appears on a facility with more than one image. */
  predicate GalleryButtonShown(f: Facility)
  {
    |f.images| > 1
  }

  /** `openImageModal(0)`: every gallery button opens on image 0. */
  function OpenImageModal(): (r: Option<nat>)
    ensures r == Some(0)
  {
    Some(0)
  }

  /** The picture the modal shows as written: image `index` of the first
      filtered facility, or nothing. */
  function ModalImageAsWritten(facilities: seq<Facility>, index: nat): string
  {
    if |facilities| > 0 && index < |facilities[0].images| then facilities[0].images[index] else ""
  }

  /** A library without pictures listed before a lab with two: the lab's
      gallery button opens the modal, but the modal looks for the library's
      images and shows nothing, while the arrows wrap at the lab's count. */
  lemma GalleryShowsFirstFacility()
    ensures var library := Facility(1, "Library", "academic", [], []);
            var lab := Facility(2, "Lab", "academic", ["lab-1.jpg", "lab-2.jpg"], []);
            var shown := [library, lab];
            GalleryButtonShown(lab)
            && ModalImageAsWritten(shown, OpenImageModal().value) == ""
            && ModalImageAsWritten(shown, OpenImageModal().value) !in lab.images
            && NextImage(OpenImageModal(), shown) == Some(1)
  {
    var library := Facility(1, "Library", "academic", [], []);
    var lab := Facility(2, "Lab", "academic", ["lab-1.jpg", "lab-2.jpg"], []);
    var shown := [library, lab];
    assert GalleryFacility(shown[1..]) == Some(lab);
    assert GalleryFacility(shown) == Some(lab);
  }

  /** The gallery as evidently intended: it remembers whose button was
      clicked and which of that facility's images is on screen. */
  datatype Gallery = Gallery(facility: nat, image: nat)

  predicate ValidGallery(g: Gallery, facilities: seq<Facility>)
  {
    g.facility < |facilities| && g.image < |facilities[g.facility].images|
  }

  /** Clicking the gallery button of the `k`-th listed facility. */
  function OpenGallery(facilities: seq<Facility>, k: nat): (g: Gallery)
    requires k < |facilities| && GalleryButtonShown(facilities[k])
    ensures ValidGallery(g, facilities) && g.facility == k && g.image == 0
  {
    Gallery(k, 0)
  }

  datatype Arrow = NextArrow | PrevArrow

  /** One arrow press, wrapping within the open facility's images. */
  function MoveGallery(g: Gallery, a: Arrow, facilities: seq<Facility>): (r: Gallery)
    requires ValidGallery(g, facilities)
    ensures ValidGallery(r, facilities) && r.facility == g.facility
  {
    var n := |facilities[g.facility].images|;
    match a
    case NextArrow => g.(image := Recommendations.NextIndex(g.image, n))
    case PrevArrow => g.(image := Recommendations.PrevIndex(g.image, n))
  }

  function MoveAll(g: Gallery, arrows: seq<Arrow>, facilities: seq<Facility>): (r: Gallery)
    requires ValidGallery(g, facilities)
    decreases |arrows|
  {
    if |arrows| == 0 then g else MoveAll(MoveGallery(g, arrows[0], facilities), arrows[1..], facilities)
  }

  /** The picture on screen. */
  function GalleryImage(g: Gallery, facilities: seq<Facility>): string
    requires ValidGallery(g, facilities)
  {
    facilities[g.facility].images[g.image]
  }

  /** However the arrows are pressed, the gallery stays on the facility whose
      button was clicked and always shows one of its images. */
  lemma {:induction false} GalleryStaysOnFacility(g: Gallery, arrows: seq<Arrow>, facilities: seq<Facility>)
    requires ValidGallery(g, facilities)
    ensures ValidGallery(MoveAll(g, arrows, facilities), facilities)
    ensures MoveAll(g, arrows, facilities).facility == g.facility
    ensures GalleryImage(MoveAll(g, arrows, facilities), facilities) in facilities[g.facility].images
    decreases |arrows|
  {
    if |arrows| > 0 {
      GalleryStaysOnFacility(MoveGallery(g, arrows[0], facilities), arrows[1..], facilities);
    }
  }

  /** The feature list: the first three features, and "+(n-3) more" when
      there are more than three. */
  function FeatureSummary(features: seq<string>): (r: (seq<string>, Option<nat>))
    ensures r.0 <= features && |r.0| == if |features| < 3 then |features| else 3
    ensures r.1.Some? <==> |features| > 3
    ensures |r.0| + r.1.GetOr(0) == |features|
  {
    (Take(features, 3), if |features| > 3 then Some(|features| - 3) else None)
  }
}
