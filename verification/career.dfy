/** The career exploration page (src/pages/career-exploration/index.jsx):
    bookmarks keyed by career name, the detail panel and the view switch. */
module Career {
  import opened Wrappers
  import opened Seqs

  /** A career as the page passes it around; only the name identifies it. */
  datatype Career = Career(name: string, stream: string)

  /** `bookmarkedCareers.some(c => c.name === career.name)`. */
  predicate IsBookmarked(list: seq<Career>, c: Career)
  {
    exists i :: 0 <= i < |list| && list[i].name == c.name
  }

  /** No two bookmarks share a name. */
  ghost predicate UniqueNames(list: seq<Career>)
  {
    forall i, j :: 0 <= i < j < |list| ==> list[i].name != list[j].name
  }

  function OtherName(name: string): Career -> bool
  {
    (x: Career) => x.name != name
  }

  /** `handleRemoveBookmark`: drop every bookmark with that name; the rest
      keep their order. */
  function RemoveBookmark(list: seq<Career>, c: Career): (r: seq<Career>)
    ensures !IsBookmarked(r, c)
    ensures forall d: Career :: d.name != c.name ==> (IsBookmarked(r, d) <==> IsBookmarked(list, d))
    ensures !IsBookmarked(list, c) ==> r == list
    ensures IsSubseq(r, list)
    ensures forall i :: 0 <= i < |list| && list[i].name != c.name ==> list[i] in r
  {
    var r := Filter(list, OtherName(c.name));
    FilterIsSubseq(list, OtherName(c.name));
    if !IsBookmarked(list, c) then
      FilterAll(list, OtherName(c.name));
      r
    else
      RemoveKeepsOthers(list, c);
      r
  }

  lemma RemoveKeepsOthers(list: seq<Career>, c: Career)
    ensures forall d: Career :: d.name != c.name ==>
              (IsBookmarked(Filter(list, OtherName(c.name)), d) <==> IsBookmarked(list, d))
  {
    var r := Filter(list, OtherName(c.name));
    forall d: Career | d.name != c.name
      ensures IsBookmarked(r, d) <==> IsBookmarked(list, d)
    {
      if IsBookmarked(list, d) {
        var i :| 0 <= i < |list| && list[i].name == d.name;
        assert OtherName(c.name)(list[i]);
        assert list[i] in r;
        var j :| 0 <= j < |r| && r[j] == list[i];
      }
      if IsBookmarked(r, d) {
        var j :| 0 <= j < |r| && r[j].name == d.name;
        assert r[j] in list;
        var i :| 0 <= i < |list| && list[i] == r[j];
      }
    }
  }

  /** `handleBookmarkCareer`: remove the career if a bookmark has its name,
      otherwise append it. */
  function ToggleBookmark(list: seq<Career>, c: Career): (r: seq<Career>)
    ensures IsBookmarked(r, c) <==> !IsBookmarked(list, c)
    ensures forall d: Career :: d.name != c.name ==> (IsBookmarked(r, d) <==> IsBookmarked(list, d))
    ensures !IsBookmarked(list, c) ==> r == list + [c]
  {
    if IsBookmarked(list, c) then RemoveBookmark(list, c)
    else
      assert IsBookmarked(list + [c], c) by {
        assert (list + [c])[|list|] == c;
      }
      assert forall d: Career :: d.name != c.name ==> (IsBookmarked(list + [c], d) <==> IsBookmarked(list, d)) by {
        forall d: Career | d.name != c.name && IsBookmarked(list + [c], d)
          ensures IsBookmarked(list, d)
        {
          var i :| 0 <= i < |list + [c]| && (list + [c])[i].name == d.name;
          assert i < |list|;
          assert list[i].name == d.name;
        }
        forall d | IsBookmarked(list, d)
          ensures IsBookmarked(list + [c], d)
        {
          var i :| 0 <= i < |list| && list[i].name == d.name;
          assert (list + [c])[i] == list[i];
        }
      }
      list + [c]
  }

  /** Toggling keeps bookmark names unique. */
  lemma ToggleKeepsUnique(list: seq<Career>, c: Career)
    requires UniqueNames(list)
    ensures UniqueNames(ToggleBookmark(list, c))
  {
    var r := ToggleBookmark(list, c);
    if IsBookmarked(list, c) {
      FilterIsSubseq(list, OtherName(c.name));
      SubseqKeepsUnique(r, list);
    } else {
      forall i, j | 0 <= i < j < |r|
        ensures r[i].name != r[j].name
      {
        if j == |list| {
          assert r[i] == list[i];
        }
      }
    }
  }

  lemma {:induction false} SubseqKeepsUnique(a: seq<Career>, b: seq<Career>)
    requires IsSubseq(a, b) && UniqueNames(b)
    ensures UniqueNames(a)
    decreases |b|
  {
    if |a| > 0 {
      if a[0] == b[0] && IsSubseq(a[1..], b[1..]) {
        SubseqKeepsUnique(a[1..], b[1..]);
        forall j | 0 < j < |a|
          ensures a[0].name != a[j].name
        {
          SubseqMember(a[1..], b[1..], j - 1);
          var k :| 0 <= k < |b[1..]| && b[1..][k] == a[j];
          assert b[k + 1] == a[j];
        }
      } else {
        assert IsSubseq(a, b[1..]);
        SubseqKeepsUnique(a, b[1..]);
      }
    }
  }

  /** An element of a subsequence is an element of the whole. */
  lemma {:induction false} SubseqMember<T>(a: seq<T>, b: seq<T>, i: int)
    requires IsSubseq(a, b) && 0 <= i < |a|
    ensures exists k :: 0 <= k < |b| && b[k] == a[i]
    decreases |b|
  {
    if a[0] == b[0] && IsSubseq(a[1..], b[1..]) {
      if i > 0 {
        SubseqMember(a[1..], b[1..], i - 1);
        var k :| 0 <= k < |b[1..]| && b[1..][k] == a[1..][i - 1];
        assert b[k + 1] == a[i];
      } else {
        assert b[0] == a[0];
      }
    } else {
      SubseqMember(a, b[1..], i);
      var k :| 0 <= k < |b[1..]| && b[1..][k] == a[i];
      assert b[k + 1] == a[i];
    }
  }

  /** Toggling twice restores which names are bookmarked, and the list
      itself when the career was not bookmarked. */
  lemma ToggleTwice(list: seq<Career>, c: Career)
    ensures forall d: Career :: IsBookmarked(ToggleBookmark(ToggleBookmark(list, c), c), d) <==> IsBookmarked(list, d)
    ensures !IsBookmarked(list, c) ==> ToggleBookmark(ToggleBookmark(list, c), c) == list
  {
    if !IsBookmarked(list, c) {
      FilterConcat(list, [c], OtherName(c.name));
      assert !OtherName(c.name)(c);
      assert Filter([c], OtherName(c.name)) == [];
      forall i | 0 <= i < |list|
        ensures OtherName(c.name)(list[i])
      {
      }
      FilterAll(list, OtherName(c.name));
    }
  }

  datatype View = TreeView | RecommendationsView | ArView

  /** What the page shows besides the lists. */
  datatype Page = Page(view: View, stream: string, selected: Option<Career>, panelOpen: bool)

  /** Arriving from the assessment opens the recommendations. */
  function InitialPage(fromAssessment: bool): (p: Page)
    ensures p.view == (if fromAssessment then RecommendationsView else TreeView)
    ensures p.stream == "" && p.selected == None && !p.panelOpen
  {
    Page(if fromAssessment then RecommendationsView else TreeView, "", None, false)
  }

  /** `handleCareerSelect`. */
  function SelectCareer(p: Page, c: Career): (r: Page)
    ensures r.selected == Some(c) && r.panelOpen
    ensures r.view == p.view && r.stream == p.stream
  {
    p.(selected := Some(c), panelOpen := true)
  }

  /** `handleCloseDetailPanel`. */
  function CloseDetail(p: Page): (r: Page)
    ensures r.selected == None && !r.panelOpen
    ensures r.view == p.view && r.stream == p.stream
  {
    p.(selected := None, panelOpen := false)
  }

  /** `handleViewAllRecommendations`: the tree, focused on science. */
  function ViewAll(p: Page): (r: Page)
    ensures r.view == TreeView && r.stream == "science"
    ensures r.selected == p.selected && r.panelOpen == p.panelOpen
  {
    p.(view := TreeView, stream := "science")
  }

  /** The panel is open exactly when a career is selected. */
  predicate PanelConsistent(p: Page)
  {
    p.panelOpen <==> p.selected.Some?
  }

  datatype PageAction = Select(c: Career) | Close | ShowAll | SwitchView(v: View) | PickStream(s: string)

  function Apply(p: Page, a: PageAction): Page
  {
    match a
    case Select(c) => SelectCareer(p, c)
    case Close => CloseDetail(p)
    case ShowAll => ViewAll(p)
    case SwitchView(v) => p.(view := v)
    case PickStream(s) => p.(stream := s)
  }

  function ApplyAll(p: Page, actions: seq<PageAction>): Page
    decreases |actions|
  {
    if |actions| == 0 then p else ApplyAll(Apply(p, actions[0]), actions[1..])
  }

  /** Every sequence of page actions keeps the panel and the selection in step. */
  lemma {:induction false} PanelStaysConsistent(p: Page, actions: seq<PageAction>)
    requires PanelConsistent(p)
    ensures PanelConsistent(ApplyAll(p, actions))
    decreases |actions|
  {
    if |actions| > 0 {
      PanelStaysConsistent(Apply(p, actions[0]), actions[1..]);
    }
  }
}
