/**
 * The story list: the tag menu built from all stories, the case-insensitive
 * tag filter, the empty-list message, and which story the player shows.
 */
module StoriesBrowser {
  import opened Maybe
  import opened Text
  import opened StringOrder
  import opened Stories
  import StoryCard

  // ---------------------------------------------------------------------
  // Tag menu
  // ---------------------------------------------------------------------

  /** The trimmed tag fields one story contributes: none when its tags are missing. */
  function StoryTagFields(story: Story): seq<string>
  {
    match story.tags
    case None => []
    case Some(text) => TagList(text)
  }

  /** The groups' elements, one group after another. */
  function Flatten(groups: seq<seq<string>>): seq<string>
  {
    if |groups| == 0 then [] else Flatten(groups[..|groups| - 1]) + groups[|groups| - 1]
  }

  /** Every element of the flattening comes from some group. */
  lemma {:induction false} FlattenSound(groups: seq<seq<string>>, t: string)
    requires t in Flatten(groups)
    ensures exists k :: 0 <= k < |groups| && t in groups[k]
  {
    var front := groups[..|groups| - 1];
    if t in Flatten(front) {
      FlattenSound(front, t);
      var k :| 0 <= k < |front| && t in front[k];
      assert groups[k] == front[k];
    } else {
      assert t in groups[|groups| - 1];
    }
  }

  /** Every element of every group is in the flattening. */
  lemma {:induction false} FlattenComplete(groups: seq<seq<string>>, k: nat, t: string)
    requires k < |groups| && t in groups[k]
    ensures t in Flatten(groups)
  {
    var front := groups[..|groups| - 1];
    if k < |front| {
      assert front[k] == groups[k];
      FlattenComplete(front, k, t);
    }
  }

  /** Each story's tag fields, story by story. */
  function StoryGroups(stories: seq<Story>): (groups: seq<seq<string>>)
    ensures |groups| == |stories|
  {
    seq(|stories|, k requires 0 <= k < |stories| => StoryTagFields(stories[k]))
  }

  /** Every trimmed tag field of every story, story by story. */
  function TagFields(stories: seq<Story>): seq<string>
  {
    Flatten(StoryGroups(stories))
  }

  /** A text is a tag field exactly when it is one of the fields of some story; a story without tags adds none. */
  lemma TagFieldsFrom(stories: seq<Story>, tag: string)
    ensures tag in TagFields(stories) <==> exists s :: s in stories && tag in StoryTagFields(s)
  {
    var groups := StoryGroups(stories);
    if tag in TagFields(stories) {
      FlattenSound(groups, tag);
      var k :| 0 <= k < |groups| && tag in groups[k];
      assert stories[k] in stories && groups[k] == StoryTagFields(stories[k]);
    }
    if exists s :: s in stories && tag in StoryTagFields(s) {
      var s :| s in stories && tag in StoryTagFields(s);
      var k :| 0 <= k < |stories| && stories[k] == s;
      FlattenComplete(groups, k, tag);
    }
  }

  /** A set's insertion-ordered contents gain a new element at the end. */
  lemma AddNew(seen: seq<string>, tag: string)
    requires NoDuplicates(seen) && tag !in seen
    ensures NoDuplicates(seen + [tag])
  {
    var grown := seen + [tag];
    forall i, j | 0 <= i < j < |grown|
      ensures grown[i] != grown[j]
    {
      if j == |seen| {
        assert grown[i] in seen;
      }
    }
  }

  /** `pieces.forEach((tag) => set.add(tag.trim()))`, the set kept as its insertion-ordered contents. */
  method AddTrimmed(seen: seq<string>, pieces: seq<string>) returns (grown: seq<string>)
    requires NoDuplicates(seen)
    ensures NoDuplicates(grown)
    ensures forall t :: t in grown <==> t in seen || t in TrimAll(pieces)
  {
    grown := seen;
    ghost var trimmed := TrimAll(pieces);
    for j := 0 to |pieces|
      invariant NoDuplicates(grown)
      invariant forall t :: t in grown <==> t in seen || t in trimmed[..j]
    {
      var tag := Trim(pieces[j]);
      assert trimmed[..j + 1] == trimmed[..j] + [tag];
      if tag !in grown {
        AddNew(grown, tag);
        grown := grown + [tag];
      }
    }
    assert trimmed[..|pieces|] == trimmed;
  }

  /**
   * `availableTags`: every story's tags are split at commas and trimmed into
   * a set, which is then sorted. The result is strictly sorted, hence free of
   * duplicates, and holds exactly the trimmed tag fields.
   */
  method AvailableTags(stories: seq<Story>) returns (tags: seq<string>)
    ensures StrictlySorted(tags) && NoDuplicates(tags)
    ensures forall t :: t in tags <==> t in TagFields(stories)
  {
    var seen: seq<string> := [];
    ghost var groups := StoryGroups(stories);
    for i := 0 to |stories|
      invariant NoDuplicates(seen)
      invariant forall t :: t in seen <==> t in Flatten(groups[..i])
    {
      var story := stories[i];
      assert groups[..i + 1][..i] == groups[..i];
      assert groups[i] == StoryTagFields(story);
      if story.tags.Some? {
        seen := AddTrimmed(seen, Split(story.tags.value, ','));
      }
    }
    assert groups[..|stories|] == groups;
    tags := Sort(seen);
    StrictlySortedHasNoDuplicates(tags);
    assert forall t :: t in tags <==> t in multiset(seen);
  }

  // ---------------------------------------------------------------------
  // Filter
  // ---------------------------------------------------------------------

  /**
   * `s.tags?.toLowerCase().includes(selectedTag.toLowerCase())`: the story
   * has tags, and the lower-cased tag occurs somewhere in its lower-cased
   * tags text.
   */
  function Matches(story: Story, selectedTag: string): (matched: bool)
    ensures matched <==>
      story.tags.Some? && exists i :: OccursAt(Lower(story.tags.value), Lower(selectedTag), i)
  {
    match story.tags
    case None => false
    case Some(tags) =>
      IncludesIff(Lower(tags), Lower(selectedTag));
      assert Includes(Lower(tags), Lower(selectedTag)) <==>
        story.tags.Some? && exists i :: OccursAt(Lower(story.tags.value), Lower(selectedTag), i);
      Includes(Lower(tags), Lower(selectedTag))
  }

  /** `xs` is `ys` with some elements left out and the rest in their order. */
  predicate IsSubsequence<T(==)>(xs: seq<T>, ys: seq<T>)
  {
    if |xs| == 0 then true
    else if |ys| == 0 then false
    else (xs[0] == ys[0] && IsSubsequence(xs[1..], ys[1..])) || IsSubsequence(xs, ys[1..])
  }

  lemma {:induction false} SubsequenceOfItself<T>(xs: seq<T>)
    ensures IsSubsequence(xs, xs)
  {
    if |xs| > 0 {
      SubsequenceOfItself(xs[1..]);
    }
  }

  /** `stories.filter(...)`: the matching stories, in order. */
  function KeepMatching(stories: seq<Story>, selectedTag: string): (kept: seq<Story>)
    ensures IsSubsequence(kept, stories)
    ensures forall s :: multiset(kept)[s] == if Matches(s, selectedTag) then multiset(stories)[s] else 0
  {
    if |stories| == 0 then []
    else
      var rest := KeepMatching(stories[1..], selectedTag);
      assert stories == [stories[0]] + stories[1..];
      if Matches(stories[0], selectedTag) then [stories[0]] + rest else rest
  }

  /**
   * `filteredStories`: with no tag selected, the list itself; otherwise an
   * order-preserving sub-list that keeps every copy of each story whose tags,
   * lower-cased, contain the lower-cased tag, and nothing else. A story
   * without tags never survives a filter.
   */
  function FilterStories(stories: seq<Story>, selectedTag: string): (shown: seq<Story>)
    ensures selectedTag == "" ==> shown == stories
    ensures IsSubsequence(shown, stories)
    ensures selectedTag != "" ==> forall s :: multiset(shown)[s] == if Matches(s, selectedTag) then multiset(stories)[s] else 0
    ensures selectedTag != "" ==> forall s :: s in shown ==> s.tags.Some?
  {
    if selectedTag == "" then
      SubsequenceOfItself(stories);
      stories
    else
      var kept := KeepMatching(stories, selectedTag);
      assert forall s :: s in kept ==> multiset(kept)[s] > 0;
      kept
  }

  /** A story carrying a tag field survives the filter on that tag. */
  lemma TaggedStorySurvives(stories: seq<Story>, k: nat, tag: string)
    requires k < |stories| && stories[k].tags.Some? && tag in TagList(stories[k].tags.value)
    ensures Matches(stories[k], tag)
    ensures stories[k] in FilterStories(stories, tag)
  {
    var text := stories[k].tags.value;
    TagListShape(text);
    LowerKeepsIncludes(text, tag);
    if tag != "" {
      assert stories[k] in multiset(stories);
    }
  }

  /** Choosing any tag of the menu lists at least one story. */
  lemma MenuTagListsAStory(stories: seq<Story>, tag: string)
    requires tag in TagFields(stories)
    ensures |FilterStories(stories, tag)| > 0
  {
    TagFieldsFrom(stories, tag);
    var s :| s in stories && tag in StoryTagFields(s);
    var k :| 0 <= k < |stories| && stories[k] == s;
    TaggedStorySurvives(stories, k, tag);
  }

  /** The filter matches substrings, not whole tags: "Fun" also lists a story tagged only "Funny". */
  lemma FilterMatchesSubstrings()
    ensures var funny := Story("1", "A", "B", Some("Funny"), "a.mp3", None);
      && "Fun" !in TagList("Funny")
      && FilterStories([funny], "Fun") == [funny]
  {
    var funny := Story("1", "A", "B", Some("Funny"), "a.mp3", None);
    FunnyMatchesFun(funny);
    OneTag("Funny");
    assert [funny][1..] == [];
    assert KeepMatching([funny], "Fun") == [funny];
  }

  lemma FunnyMatchesFun(story: Story)
    requires story.tags == Some("Funny")
    ensures Matches(story, "Fun")
  {
    LowerFun();
    assert OccursAt("funny", "fun", 0);
    IncludesIff("funny", "fun");
  }

  /** A comma-free text without white space at either end is a single tag, itself. */
  lemma OneTag(text: string)
    requires ',' !in text && |text| > 0 && !IsSpace(text[0]) && !IsSpace(text[|text| - 1])
    ensures TagList(text) == [text]
  {
    SingleTag(text);
    assert TrimStart(text) == text;
    assert TrimEnd(text) == text;
  }

  lemma LowerFun()
    ensures Lower("Fun") == "fun" && Lower("Funny") == "funny"
  {
    assert Lower("Fun")[0] == 'f';
    assert Lower("Funny")[0] == 'f';
  }

  /** A comma-free text is a single tag, its trimmed self. */
  lemma SingleTag(text: string)
    requires ',' !in text
    ensures TagList(text) == [Trim(text)]
  {
    SplitJoin([text], ',');
    assert Join([text], ',') == text;
  }

  // ---------------------------------------------------------------------
  // Empty list
  // ---------------------------------------------------------------------

  /** The message shown instead of an empty list. */
  function EmptyMessage(selectedTag: string): (message: string)
    ensures selectedTag == "" ==> message == "No stories available"
    ensures selectedTag != "" ==> message == "No stories tagged \"" + selectedTag + "\""
  {
    if selectedTag != "" then "No stories tagged \"" + selectedTag + "\"" else "No stories available"
  }

  /** The message the page shows, if any: only when the filtered list is empty. */
  function ListMessage(stories: seq<Story>, selectedTag: string): (message: Option<string>)
    ensures message.Some? <==> |FilterStories(stories, selectedTag)| == 0
    ensures message.Some? ==> message.value == EmptyMessage(selectedTag)
  {
    if |FilterStories(stories, selectedTag)| == 0 then Some(EmptyMessage(selectedTag)) else None
  }

  /** A menu tag never brings up the empty-list message, and a named tag appears inside its message. */
  lemma MessagesFollowTheMenu(stories: seq<Story>, tag: string)
    ensures tag in TagFields(stories) ==> ListMessage(stories, tag).None?
    ensures tag != "" ==> Includes(EmptyMessage(tag), tag)
  {
    if tag in TagFields(stories) {
      MenuTagListsAStory(stories, tag);
    }
    if tag != "" {
      var m := EmptyMessage(tag);
      assert m[19..19 + |tag|] == tag;
      assert OccursAt(m, tag, 19);
      IncludesIff(m, tag);
    }
  }

  // ---------------------------------------------------------------------
  // The page's state
  // ---------------------------------------------------------------------

  /** The browser page: its fixed list of stories, the chosen tag and the story in the player. */
  class Browser {
    const stories: seq<Story>
    var selectedTag: string
    var selectedStory: Option<Story>

    constructor (initialStories: seq<Story>)
      ensures stories == initialStories
      ensures selectedTag == "" && selectedStory == None
    {
      stories := initialStories;
      selectedTag := "";
      selectedStory := None;
    }

    /** The tag filter reports a choice (the empty string clears it). */
    method ChooseTag(tag: string)
      modifies this`selectedTag
      ensures selectedTag == tag
    {
      selectedTag := tag;
    }

    /** A card's `onPlay`: the player shows that story. */
    method PlayStory(story: Story)
      modifies this`selectedStory
      ensures selectedStory == Some(story)
    {
      selectedStory := Some(story);
    }

    /** The player's `onClose`: no story is shown. */
    method ClosePlayer()
      modifies this`selectedStory
      ensures selectedStory == None
    {
      selectedStory := None;
    }

    /** A key press on a card: Enter or Space opens the player on that story, any other key changes nothing. */
    method CardKeyDown(story: Story, key: string)
      modifies this`selectedStory
      ensures key == "Enter" || key == " " ==> selectedStory == Some(story)
      ensures !(key == "Enter" || key == " ") ==> selectedStory == old(selectedStory)
    {
      var outcome := StoryCard.HandleKeyDown(story, key);
      if |outcome.played| == 1 {
        PlayStory(outcome.played[0]);
      }
    }
  }
}
