/** The chat assistant's conversation list
    (src/pages/ai-chat-assistant/components/ChatHistory.jsx): the fallback to
    sample conversations, the case-insensitive search over titles and last
    messages, the empty state and the category icon and colour. The "how
    long ago" caption is `RelativeTime.HistoryAgo`. */
module ChatHistory {
  import opened Seqs
  import opened Strings

  datatype Conversation = Conversation(id: string, title: string, lastMessage: string, category: string)

  /** The four sample conversations shown when the caller passes none. */
  const MOCK_CONVERSATIONS: seq<Conversation> := [
    Conversation("conv-1", "Engineering Career Options", "What are the best engineering colleges in Kashmir?", "career"),
    Conversation("conv-2", "Medical Stream Guidance", "Tell me about NEET preparation", "education"),
    Conversation("conv-3", "Scholarship Information", "Available scholarships for minorities", "scholarship"),
    Conversation("conv-4", "Commerce Stream Options", "CA vs MBA which is better?", "career")
  ]

  /** `activeConversations`. */
  function ActiveConversations(conversations: seq<Conversation>): (r: seq<Conversation>)
    ensures |conversations| > 0 ==> r == conversations
    ensures |conversations| == 0 ==> r == MOCK_CONVERSATIONS
    ensures |r| > 0
  {
    if |conversations| > 0 then conversations else MOCK_CONVERSATIONS
  }

  /** The search test: the lower-cased query occurs in the lower-cased title
      or last message. */
  function MatchesQuery(query: string): Conversation -> bool
  {
    (c: Conversation) => Contains(ToLower(c.title), ToLower(query)) || Contains(ToLower(c.lastMessage), ToLower(query))
  }

  /** `filteredConversations`. */
  function Search(conversations: seq<Conversation>, query: string): (r: seq<Conversation>)
    ensures forall x :: x in r ==> x in conversations
                                   && (Contains(ToLower(x.title), ToLower(query)) || Contains(ToLower(x.lastMessage), ToLower(query)))
    ensures forall i :: 0 <= i < |conversations|
                        && (Contains(ToLower(conversations[i].title), ToLower(query))
                            || Contains(ToLower(conversations[i].lastMessage), ToLower(query)))
                        ==> conversations[i] in r
    ensures IsSubseq(r, conversations)
  {
    FilterIsSubseq(conversations, MatchesQuery(query));
    Filter(conversations, MatchesQuery(query))
  }

  /** The empty search box lists every conversation. */
  lemma EmptyQueryKeepsAll(conversations: seq<Conversation>)
    ensures Search(conversations, "") == conversations
  {
    FilterAll(conversations, MatchesQuery(""));
  }

  /** Case does not matter: searching for the lower-cased query finds the
      same conversations. */
  lemma SearchIgnoresCase(conversations: seq<Conversation>, query: string)
    ensures Search(conversations, ToLower(query)) == Search(conversations, query)
  {
    ToLowerIdempotent(query);
    FilterExt(conversations, MatchesQuery(ToLower(query)), MatchesQuery(query));
  }

  /** A needle occurs wherever a longer needle that starts with it occurs. */
  lemma ContainsPrefix(hay: string, needle: string, more: string)
    requires Contains(hay, needle + more)
    ensures Contains(hay, needle)
  {
    ContainsAt(hay, needle + more);
    ContainsAt(hay, needle);
    var k :| OccursAt(hay, needle + more, k);
    assert hay[k..k + |needle|] == (needle + more)[..|needle|];
    assert OccursAt(hay, needle, k);
  }

  /** Typing more characters into the search box only narrows the list.
      This holds for the ASCII case folding modelled here; the full Unicode
      `toLowerCase` lowers a Greek capital sigma by its position, so there
      a longer query can show a title a shorter one hides. */
  lemma TypingNarrows(conversations: seq<Conversation>, query: string, more: string)
    ensures IsSubseq(Search(conversations, query + more), Search(conversations, query))
  {
    ToLowerConcat(query, more);
    forall c: Conversation | MatchesQuery(query + more)(c)
      ensures MatchesQuery(query)(c)
    {
      if Contains(ToLower(c.title), ToLower(query) + ToLower(more)) {
        ContainsPrefix(ToLower(c.title), ToLower(query), ToLower(more));
      } else {
        ContainsPrefix(ToLower(c.lastMessage), ToLower(query), ToLower(more));
      }
    }
    FilterMonotone(conversations, MatchesQuery(query + more), MatchesQuery(query));
  }

  /** "No conversations found" is shown exactly when nothing matches. */
  lemma EmptyStateIff(conversations: seq<Conversation>, query: string)
    ensures |Search(conversations, query)| == 0 <==>
            forall i :: 0 <= i < |conversations| ==> !MatchesQuery(query)(conversations[i])
  {
    var r := Search(conversations, query);
    if |r| > 0 {
      assert r[0] in r;
    }
  }

  /** `getCategoryIcon`: four known categories, 'MessageCircle' otherwise. */
  function CategoryIcon(category: string): (icon: string)
    ensures category == "career" ==> icon == "Compass"
    ensures category == "education" ==> icon == "BookOpen"
    ensures category == "scholarship" ==> icon == "Award"
    ensures category == "college" ==> icon == "GraduationCap"
    ensures icon == "MessageCircle" <==> category !in {"career", "education", "scholarship", "college"}
  {
    if category == "career" then "Compass"
    else if category == "education" then "BookOpen"
    else if category == "scholarship" then "Award"
    else if category == "college" then "GraduationCap"
    else "MessageCircle"
  }

  datatype CategoryTone = PrimaryTone | SecondaryTone | SuccessTone | AccentTone | MutedTone

  /** `getCategoryColor`: four known categories, muted otherwise. */
  function CategoryColor(category: string): (t: CategoryTone)
    ensures category == "career" <==> t == PrimaryTone
    ensures category == "education" <==> t == SecondaryTone
    ensures category == "scholarship" <==> t == SuccessTone
    ensures category == "college" <==> t == AccentTone
    ensures t == MutedTone <==> category !in {"career", "education", "scholarship", "college"}
  {
    if category == "career" then PrimaryTone
    else if category == "education" then SecondaryTone
    else if category == "scholarship" then SuccessTone
    else if category == "college" then AccentTone
    else MutedTone
  }

  /** The icon and the colour tell the same story: a category has its own
      icon exactly when it has its own colour. */
  lemma IconAndColorAgree(category: string)
    ensures CategoryIcon(category) == "MessageCircle" <==> CategoryColor(category) == MutedTone
  {
  }
}
