/** One story's card: its tag chips, cover image, labels and keyboard activation. */
module StoryCard {
  import opened Maybe
  import opened Text
  import opened Stories

  /** The cover shown when a story has no image. */
  const Placeholder: string := "/placeholder.svg?height=180&width=300"

  /** JavaScript truthiness of an optional string: missing and "" are both falsy. */
  predicate Present(s: Option<string>)
  {
    s.Some? && s.value != ""
  }

  /**
   * The tag chips: none when `tags` is missing or empty; otherwise one chip
   * per comma-separated field (one more than there are commas, in order,
   * duplicates kept), each the field trimmed and each a piece of `tags`.
   */
  function CardTags(tags: Option<string>): (chips: seq<string>)
    ensures !Present(tags) ==> chips == []
    ensures Present(tags) ==> |chips| == |Split(tags.value, ',')| == Occurrences(tags.value, ',') + 1
    ensures Present(tags) ==> forall k :: 0 <= k < |chips| ==>
      chips[k] == Trim(Split(tags.value, ',')[k]) && Includes(tags.value, chips[k])
  {
    if Present(tags) then
      TagListShape(tags.value);
      TagList(tags.value)
    else []
  }

  /** What a key press on the card did: the stories handed to `onPlay`, and whether the default action was stopped. */
  datatype KeyOutcome = KeyOutcome(played: seq<Story>, defaultPrevented: bool)

  /** `handleKeyDown`: Enter and Space each play the card's story once; every other key does nothing. */
  function HandleKeyDown(story: Story, key: string): (out: KeyOutcome)
    ensures |out.played| <= 1 && forall s :: s in out.played ==> s == story
    ensures |out.played| == 1 <==> key == "Enter" || key == " "
    ensures out.defaultPrevented <==> |out.played| == 1
  {
    if key == "Enter" || key == " " then KeyOutcome([story], true) else KeyOutcome([], false)
  }

  /** The cover's source: the story's image when it has one, the placeholder otherwise; never empty. */
  function ImageSource(imageUrl: Option<string>): (src: string)
    ensures src != ""
    ensures Present(imageUrl) ==> src == imageUrl.value
    ensures !Present(imageUrl) ==> src == Placeholder
  {
    if Present(imageUrl) then imageUrl.value else Placeholder
  }

  /** The card's accessible name. */
  function CardLabel(title: string): (name: string)
    ensures |name| == 12 + |title| && name[..12] == "Play story: " && name[12..] == title
  {
    "Play story: " + title
  }

  /** The play button's accessible name. */
  function PlayButtonLabel(title: string): (name: string)
    ensures |name| == 5 + |title| && name[..5] == "Play " && name[5..] == title
  {
    "Play " + title
  }

  /** The cover image's alternative text. */
  function CoverAlt(title: string): (alt: string)
    ensures |alt| == 16 + |title| && alt[..16] == "Cover image for " && alt[16..] == title
  {
    "Cover image for " + title
  }

  /** Every label names the story: a search for the title finds it in each. */
  lemma LabelsNameTheTitle(title: string)
    ensures Includes(CardLabel(title), title)
    ensures Includes(PlayButtonLabel(title), title)
    ensures Includes(CoverAlt(title), title)
  {
    IncludesIff(CardLabel(title), title);
    assert OccursAt(CardLabel(title), title, 12);
    IncludesIff(PlayButtonLabel(title), title);
    assert OccursAt(PlayButtonLabel(title), title, 5);
    IncludesIff(CoverAlt(title), title);
    assert OccursAt(CoverAlt(title), title, 16);
  }
}
