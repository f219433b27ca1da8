/** The career tree (src/pages/career-exploration/components/CareerTreeVisualization.jsx):
    one set of expanded node ids shared by streams and branches, the
    desktop and mobile visibility rules, the "Recommended" highlight and the
    colour fallbacks. */
module CareerTree {
  import opened Recommendations

  /** `toggleNode`: remove the id if present, otherwise add it. */
  function ToggleNode(expanded: set<string>, id: string): (r: set<string>)
    ensures id in r <==> id !in expanded
    ensures forall x :: x != id ==> (x in r <==> x in expanded)
  {
    if id in expanded then expanded - {id} else expanded + {id}
  }

  /** Toggling the same node twice restores the set. */
  lemma ToggleNodeTwice(expanded: set<string>, id: string)
    ensures ToggleNode(ToggleNode(expanded, id), id) == expanded
  {
  }

  /** Toggles of different nodes commute, so the order of clicks on
      different nodes does not matter. */
  lemma ToggleNodeCommutes(expanded: set<string>, a: string, b: string)
    ensures ToggleNode(ToggleNode(expanded, a), b) == ToggleNode(ToggleNode(expanded, b), a)
  {
  }

  /** `isPersonalized`: the career's name is one of the personalised names. */
  predicate IsPersonalized(personalized: seq<string>, name: string)
  {
    name in personalized
  }

  /** The tree's inputs: the expanded ids and the page's selected stream. */
  datatype TreeState = TreeState(expanded: set<string>, selectedStream: string)

  /** Desktop: a stream's branches show when it is expanded or selected. */
  predicate DesktopShowsBranches(t: TreeState, streamId: string)
  {
    streamId in t.expanded || t.selectedStream == streamId
  }

  /** Mobile: a stream's branches show only when it is expanded. */
  predicate MobileShowsBranches(t: TreeState, streamId: string)
  {
    streamId in t.expanded
  }

  /** Both layouts list a branch's careers only when the branch is expanded. */
  predicate ShowsCareers(t: TreeState, branchId: string)
  {
    branchId in t.expanded
  }

  /** The desktop stream header only selects (`handleStreamSelect`). */
  function DesktopHeaderClick(t: TreeState, streamId: string): (r: TreeState)
    ensures r.selectedStream == streamId && r.expanded == t.expanded
    ensures DesktopShowsBranches(r, streamId)
  {
    t.(selectedStream := streamId)
  }

  /** The mobile stream header selects the stream and toggles it. */
  function MobileHeaderClick(t: TreeState, streamId: string): (r: TreeState)
    ensures r.selectedStream == streamId
    ensures r.expanded == ToggleNode(t.expanded, streamId)
    ensures MobileShowsBranches(r, streamId) <==> !MobileShowsBranches(t, streamId)
  {
    TreeState(ToggleNode(t.expanded, streamId), streamId)
  }

  /** A branch header toggles the branch in either layout. */
  function BranchClick(t: TreeState, branchId: string): (r: TreeState)
    ensures r.selectedStream == t.selectedStream
    ensures ShowsCareers(r, branchId) <==> !ShowsCareers(t, branchId)
  {
    t.(expanded := ToggleNode(t.expanded, branchId))
  }

  /** Desktop visibility includes mobile visibility. */
  lemma MobileImpliesDesktop(t: TreeState, streamId: string)
    ensures MobileShowsBranches(t, streamId) ==> DesktopShowsBranches(t, streamId)
  {
  }

  /** Collapsing an expanded stream on mobile hides its branches there, but
      the stream is now selected, so the desktop layout keeps showing them. */
  lemma MobileCollapseStillShownOnDesktop(t: TreeState, streamId: string)
    requires MobileShowsBranches(t, streamId)
    ensures !MobileShowsBranches(MobileHeaderClick(t, streamId), streamId)
    ensures DesktopShowsBranches(MobileHeaderClick(t, streamId), streamId)
  {
  }

  /** The four stream colours the tree knows. */
  datatype StreamColor = PrimaryColor | SecondaryColor | AccentColor | SuccessColor

  /** `getColorClasses`: a known colour name, or primary for anything else. */
  function ColorOf(color: string): (c: StreamColor)
    ensures c == SecondaryColor <==> color == "secondary"
    ensures c == AccentColor <==> color == "accent"
    ensures c == SuccessColor <==> color == "success"
    ensures c == PrimaryColor <==> color !in {"secondary", "accent", "success"}
  {
    if color == "secondary" then SecondaryColor
    else if color == "accent" then AccentColor
    else if color == "success" then SuccessColor
    else PrimaryColor
  }

  /** Unknown colour names and unknown demand levels fall back to the
      primary colour and the muted tone. */
  lemma Fallbacks(color: string, demand: string)
    requires color !in {"primary", "secondary", "accent", "success"}
    requires demand !in {"Very High", "High", "Medium"}
    ensures ColorOf(color) == ColorOf("primary")
    ensures DemandToneOf(demand) == DemandMuted
  {
  }
}
