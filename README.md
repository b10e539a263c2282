# Bedtime stories: a verified model of the player and the story browser

This project models the logic of a small web app for bedtime stories.

- **The two audio players.** The welcome card's compact player and the bottom-sheet player for a chosen story. Each is a class holding the React state and, beside it, the part of the `<audio>` element it drives: position, paused flag and duration, plus the volume in the bottom-sheet player. The bottom-sheet player also holds the Media Session playback state and position state. Every click handler, element listener and Media Session command is a method with a field-level `modifies` frame.
- **The time caption.** `formatTime`, the seconds → `M:SS` formatter.
- **The story browser.** The tag menu, built by accumulating the trimmed comma-separated tags into a set and sorting it. The case-insensitive substring filter. The empty-list message. Which story the player shows.
- **The story card.** Its tag chips, keyboard activation, cover fallback and accessible labels.
- **The content schema.** The `M:SS`/`MM:SS` start-time validator, the title and description length rules, and the preview line.

The JavaScript built-ins the code leans on are written out in `text.dfy` and `string_order.dfy`: `split` (empty pieces kept), `trim`, `toLowerCase`, `includes`, `padStart`, number-to-string, and the default `sort`. These definitions are independent of each other, and the lemmas connect them: split/join round trips, the piece count, includes ⇔ "occurs at some index", and the properties of the string order.

Unknown durations are explicit. `None` stands for the element's NaN duration before its metadata arrives. Assigning NaN to `currentTime` throws in a browser, so a forward skip that lands on NaN is modelled as "nothing moves". The outcome of the asynchronous `audio.play()` is a boolean parameter (resolved or rejected).

## Model

| member | source | states |
|---|---|---|
| Text.Split | components/stories-browser.tsx:20 | `split(",")` yields at least one piece and no piece contains a comma |
| Text.JoinSplit | components/stories-browser.tsx:20 | splitting a tag string at commas loses nothing: the pieces joined with commas give the string back |
| Text.SplitJoin | components/StoryCard.tsx:14 | comma-free pieces joined with commas split back into exactly those pieces |
| Text.SplitCount | components/StoryCard.tsx:14 | `split(",")` yields one more piece than there are commas, empty pieces included |
| Text.Trim | components/stories-browser.tsx:20 | a trimmed tag is a contiguous slice of its field, only whitespace was removed, and it neither starts nor ends with whitespace |
| Text.TrimIdempotent | components/stories-browser.tsx:20 | trimming a trimmed tag changes nothing |
| Text.Lower | components/stories-browser.tsx:26 | `toLowerCase` keeps the length and lower-cases each character in place |
| Text.Includes | components/stories-browser.tsx:26 | the empty needle is always found, and a found needle is no longer than the haystack |
| Text.IncludesIff | components/stories-browser.tsx:26 | `includes` holds exactly when the needle occurs at some index of the haystack |
| Text.LowerKeepsIncludes | components/stories-browser.tsx:26 | lower-casing both sides keeps every substring occurrence, so a tag always finds its own text |
| Text.Utf16Length | sanity/story.ts:15 | a string's `length` lies between its character count and twice it; one character counts 1 inside the Basic Multilingual Plane and 2 beyond it |
| Text.Utf16LengthConcat | sanity/story.ts:15 | the `length` of a concatenation is the sum of the lengths, so with the one-character case every string's length is fixed |
| Text.NatToString | components/WelcomeIntro.tsx:109-110 | `toString` of a whole number is a non-empty run of digits with no leading zero (it starts with 0 only for 0), one digit exactly below 10 and at most two below 100 |
| Text.CanonicalDigits | components/WelcomeIntro.tsx:110 | decimal text is unique: digits without a leading zero are the `toString` of the number they read as |
| Text.NatToStringRoundTrip | components/WelcomeIntro.tsx:110 | a number's decimal text consists of digits and reads back as the number |
| Text.PadStart | components/WelcomeIntro.tsx:110 | `padStart` reaches the width (or keeps a longer text), ends with the original text and fills only the front with the fill character |
| Text.TwoPlaces | components/WelcomeIntro.tsx:110 | `padStart(2, "0")` of a value under 100 is its tens digit then its units digit |
| StringOrder.LessIrreflexive | components/stories-browser.tsx:21 | the default sort order never puts a string before itself |
| StringOrder.LessTransitive | components/stories-browser.tsx:21 | the default sort order is transitive |
| StringOrder.LessTotal | components/stories-browser.tsx:21 | any two different strings are ordered one way or the other |
| StringOrder.StrictlySortedHasNoDuplicates | components/stories-browser.tsx:21 | a strictly sorted list has no repeated entry |
| StringOrder.Insert | components/stories-browser.tsx:21 | inserting adds exactly that element, and the result starts with it or with the old first element |
| StringOrder.InsertSorted | components/stories-browser.tsx:21 | inserting into a sorted list keeps it sorted |
| StringOrder.InsertStrictlySorted | components/stories-browser.tsx:21 | inserting a new element into a strictly sorted list keeps it strictly sorted |
| StringOrder.Sort | components/stories-browser.tsx:21 | `sort()` returns a sorted permutation of its input, strictly sorted when the input has no duplicates |
| Stories.TagList | components/stories-browser.tsx:20 | a tag string yields one field more than it has commas |
| Stories.TagListShape | components/stories-browser.tsx:20 | each field is the matching comma-separated piece trimmed, is comma-free and occurs in the tag string |
| StoriesBrowser.FlattenSound | components/stories-browser.tsx:20 | every tag collected over all stories comes from one story's tags |
| StoriesBrowser.FlattenComplete | components/stories-browser.tsx:20 | every tag of every story is collected |
| StoriesBrowser.AddTrimmed | components/stories-browser.tsx:20 | adding one story's trimmed pieces to the set leaves it free of duplicates, holding the old tags and exactly those pieces trimmed |
| StoriesBrowser.TagFieldsFrom | components/stories-browser.tsx:20 | a text is among all stories' tag fields exactly when some story has tags and that text is one of its trimmed fields; stories without tags add nothing |
| StoriesBrowser.AvailableTags | components/stories-browser.tsx:18-22 | the tag menu is strictly sorted, hence has no duplicates, and holds exactly the trimmed tag fields of the stories |
| StoriesBrowser.Matches | components/stories-browser.tsx:26 | a story matches iff it has tags and the lower-cased chosen tag occurs at some index of its lower-cased tags |
| StoriesBrowser.KeepMatching | components/stories-browser.tsx:26 | `filter` yields an order-preserving sub-list that keeps every copy of each matching story and no other story |
| StoriesBrowser.FilterStories | components/stories-browser.tsx:24-27 | with no tag chosen the list is returned unchanged; otherwise the result is an order-preserving sub-list that keeps a story iff its lower-cased tags contain the lower-cased tag, and a story without tags never survives |
| StoriesBrowser.TaggedStorySurvives | components/stories-browser.tsx:26 | a story carrying a tag field matches that tag and appears in the filtered list |
| StoriesBrowser.MenuTagListsAStory | components/stories-browser.tsx:18-27 | choosing any entry of the tag menu lists at least one story |
| StoriesBrowser.FilterMatchesSubstrings | components/stories-browser.tsx:26 | matching is by substring: "Fun" lists a story tagged only "Funny" |
| StoriesBrowser.EmptyMessage | components/stories-browser.tsx:36 | with a tag chosen the message quotes it, and without one it says "No stories available" |
| StoriesBrowser.ListMessage | components/stories-browser.tsx:33-37 | a message is shown exactly when the filtered list is empty, and it is the message for the chosen tag |
| StoriesBrowser.MessagesFollowTheMenu | components/stories-browser.tsx:33-37 | a menu tag never brings up the empty-list message, and a chosen tag appears inside its message |
| StoriesBrowser.Browser.constructor | components/stories-browser.tsx:14-16 | the page starts with its stories, no tag chosen and no story in the player |
| StoriesBrowser.Browser.ChooseTag | components/stories-browser.tsx:31 | the tag filter's choice becomes the chosen tag |
| StoriesBrowser.Browser.PlayStory | components/stories-browser.tsx:52 | a card's play puts that story in the player |
| StoriesBrowser.Browser.ClosePlayer | components/stories-browser.tsx:57 | closing the player leaves no story selected |
| StoriesBrowser.Browser.CardKeyDown | components/StoryCard.tsx:20-25 | Enter or Space on a card puts its story in the player, and any other key leaves the selection as it was |
| StoryCard.CardTags | components/StoryCard.tsx:14 | missing or empty tags give no chips; otherwise one chip per comma-separated piece, in order and with duplicates kept, each the trimmed piece and each occurring in the tag string |
| StoryCard.HandleKeyDown | components/StoryCard.tsx:20-25 | Enter and Space each hand the story to `onPlay` exactly once and prevent the default action; other keys do neither |
| StoryCard.ImageSource | components/StoryCard.tsx:75 | the cover is the story's image when it has a non-empty one and the placeholder otherwise, so it is never empty |
| StoryCard.CardLabel | components/StoryCard.tsx:62 | the card's accessible name is "Play story: " followed by the title |
| StoryCard.PlayButtonLabel | components/StoryCard.tsx:208 | the play button's accessible name is "Play " followed by the title |
| StoryCard.CoverAlt | components/StoryCard.tsx:76 | the cover's alternative text is "Cover image for " followed by the title |
| StoryCard.LabelsNameTheTitle | components/StoryCard.tsx:62-208 | a search for the title finds it in each of the three labels |
| StorySchema.IsStartTime | sanity/story.ts:46 | an accepted start time has four or five characters, a colon third from the end and only digits before it |
| StorySchema.StartTimeMatchesGroups | sanity/story.ts:46 | the hand matcher accepts exactly the texts that split at one colon into 1–2 digits and a second field of a digit 0–5 then a digit, and those two groups rebuild the text |
| StorySchema.StartTimeIsShortClock | sanity/story.ts:46 | a text is an accepted start time iff it has the shape of a player's time caption and is at most five characters long |
| StorySchema.StartTimeBounds | sanity/story.ts:46 | an accepted start time has minutes 0..99 and seconds 0..59 |
| StorySchema.ClockIsStartTime | sanity/story.ts:44-46 | every time caption under 100 minutes is an acceptable start time |
| StorySchema.StartTimeExamples | sanity/story.ts:44-46 | "12:15" and "1:30" are accepted; "1:60", "1:5", "123:00" and texts with extra characters are rejected |
| StorySchema.LengthRule | sanity/story.ts:15 | a required string field with length bounds passes iff it is present and its UTF-16 length lies within the bounds |
| StorySchema.TitleValid | sanity/story.ts:15 | the title passes iff it is present with a UTF-16 length of 1 to 100 |
| StorySchema.AstralTitleTooLong | sanity/story.ts:15 | a title of 51 characters beyond the Basic Multilingual Plane has length 102 and fails the rule |
| StorySchema.DescriptionValid | sanity/story.ts:21 | the description passes iff it is present with a UTF-16 length of 10 to 500 |
| StorySchema.StartTimeFieldValid | sanity/story.ts:45-49 | a missing start time passes, and a given one passes iff it splits into the two pattern groups |
| StorySchema.Prepare | sanity/story.ts:78-83 | the preview has a title iff the document has one or is pinned, and the subtitle is exactly as long as the description, the separator and the tags together |
| StorySchema.PreviewReadsBack | sanity/story.ts:78-83 | pinning only prefixes the title with the pin and an unpinned title passes unchanged; the subtitle is the description, then " • Tags: ", then the tags, which with the length from `Prepare` accounts for every character |
| TimeFormat.ClockFields | components/WelcomeIntro.tsx:108-109 | for t ≥ 0 the minutes are non-negative, the seconds lie in 0..59, and minutes × 60 + seconds is the whole number of seconds |
| TimeFormat.Clock | components/WelcomeIntro.tsx:108-110 | a caption is minute digits without a leading zero, a colon and two digits with the first in 0–5, and it reads back as the whole number of seconds |
| TimeFormat.ClockCanonical | components/WelcomeIntro.tsx:108-110 | there is one such caption per number of seconds: any text of that shape worth n seconds is minutes n / 60, a colon and n % 60 padded to two digits |
| TimeFormat.ClockExamples | __tests__/AudioPlayer.test.tsx:100-105 | 0 s reads "0:00", 5 s reads "0:05" and 100 s reads "1:40" |
| TimeFormat.FormatTimeGuarded | components/WelcomeIntro.tsx:106-111 | a non-finite time reads "0:00", and any other time is the one caption (no leading zero on the minutes) that reads back as its whole seconds |
| Transport.SliderMax | components/WelcomeIntro.tsx:179 | the slider's maximum is positive: a known non-zero duration, or 100 for a zero or unknown one |
| Transport.SkipBackTarget | components/WelcomeIntro.tsx:71 | a backward skip lands at the start or exactly the offset back, never before 0 |
| Transport.SkipAheadTarget | components/WelcomeIntro.tsx:79 | a forward skip lands at the end or exactly the offset ahead, never past the end |
| Transport.Clamp | components/WelcomeIntro.tsx:67-81 | the clamped value lies in the range and equals the input when the input already does |
| Transport.SkipsAreClamped | components/WelcomeIntro.tsx:67-81 | from a position inside the track, each skip is its target clamped to [0, duration] and moves in its own direction |
| WelcomeIntro.IntroPlayer.constructor | components/WelcomeIntro.tsx:12-34 | the player mounts paused at 0 and not seeking, and adopts the element's duration only when it is truthy |
| WelcomeIntro.IntroPlayer.DisplayTime | components/WelcomeIntro.tsx:117-118 | the slider sits on the dragged position during a drag that has one and on the state's current time otherwise, which outside a drag is the element's own position |
| WelcomeIntro.IntroPlayer.SliderMax | components/WelcomeIntro.tsx:179 | the slider's maximum is positive: the duration once known and non-zero, 100 before |
| WelcomeIntro.IntroPlayer.ProgressLabel | components/WelcomeIntro.tsx:210-226 | while a drag has a preview the caption is two clocks around " → ", each the canonical caption of the current and the previewed whole seconds; otherwise the one canonical caption of the current whole seconds |
| WelcomeIntro.IntroPlayer.DurationLabel | components/WelcomeIntro.tsx:232 | the length caption reads "0:00" while the duration is unknown, and otherwise is the canonical caption of the duration's whole seconds |
| WelcomeIntro.IntroPlayer.OnTimeUpdate | components/WelcomeIntro.tsx:23-27 | during a drag a tick leaves the current time and the display alone; otherwise the state copies the element's time |
| WelcomeIntro.IntroPlayer.OnDurationChange | components/WelcomeIntro.tsx:28 | the state copies the element's duration, an unknown one included |
| WelcomeIntro.IntroPlayer.OnEnded | components/WelcomeIntro.tsx:29 | the end of the track leaves the player paused, the button in step with the element and the position untouched |
| WelcomeIntro.IntroPlayer.ExternalPause | components/WelcomeIntro.tsx:36-39 | a pause from outside the card stops the element and, with no `pause` listener registered, changes no state |
| WelcomeIntro.IntroPlayer.TogglePlayPause | components/WelcomeIntro.tsx:49-65 | playing pauses; paused becomes playing iff `play()` resolves, and a rejection leaves it paused; afterwards the button is in step with the element, even if it was not before |
| WelcomeIntro.IntroPlayer.SkipBackward | components/WelcomeIntro.tsx:67-73 | the element moves back 10 s but not before 0, and the state reads the new position back |
| WelcomeIntro.IntroPlayer.SkipForward | components/WelcomeIntro.tsx:75-81 | the element moves ahead 10 s but not past a known end, and the state reads it back; with the duration unknown nothing moves |
| WelcomeIntro.IntroPlayer.SeekStart | components/WelcomeIntro.tsx:83-85 | pressing the slider starts a drag and changes nothing else |
| WelcomeIntro.IntroPlayer.SeekChange | components/WelcomeIntro.tsx:87-90 | dragging changes only the preview, and during a drag the display shows it |
| WelcomeIntro.IntroPlayer.SeekCommit | components/WelcomeIntro.tsx:92-104 | releasing puts the element and the state at the value, ends the drag and clears the preview |
| WelcomeIntro.ExternalPauseLeavesStaleIcon | components/WelcomeIntro.tsx:36-65 | after a pause from outside the button still says playing over a paused element; the next press pauses and the two agree again |
| WelcomeIntro.DragOverTicks | components/WelcomeIntro.tsx:117-118 | in a whole drag over a playing track the display after each tick is exactly the latest dragged position, and the release lands exactly there |
| AudioPlayer.SeekOffset | components/AudioPlayer.tsx:73-81 | a Media Session seek moves by the given offset, and by 10 s when the offset is missing or 0 |
| AudioPlayer.PositionUpdate | components/AudioPlayer.tsx:98-106 | a position state is pushed iff a Media Session exists and the duration is positive, and it carries that duration, the current time and rate 1 |
| AudioPlayer.PushedStateIsAcceptable | components/AudioPlayer.tsx:98-106 | while the position lies inside the track, every pushed position state is one the platform accepts |
| AudioPlayer.StoryPlayer.constructor | components/AudioPlayer.tsx:13-17 | the player starts paused at 0 with duration 0, full volume and session state "none" |
| AudioPlayer.StoryPlayer.PositionLabel | components/AudioPlayer.tsx:164-168 | with a story open, the elapsed-time caption is the canonical caption of the whole seconds played |
| AudioPlayer.StoryPlayer.DurationLabel | components/AudioPlayer.tsx:164-168 | with a story open, the length caption is the canonical caption of the duration's whole seconds; this `formatTime` has no finiteness guard, and the state's duration is never NaN |
| AudioPlayer.StoryPlayer.Captions | components/AudioPlayer.tsx:170-228 | without a story the player renders nothing; with one it shows the elapsed and the length captions |
| AudioPlayer.StoryPlayer.SliderMax | components/AudioPlayer.tsx:206 | the slider's maximum is positive: the duration once non-zero, 100 before the metadata arrives |
| AudioPlayer.StoryPlayer.OnTimeUpdate | components/AudioPlayer.tsx:23 | the state copies the element's time |
| AudioPlayer.StoryPlayer.OnLoadedMetadata | components/AudioPlayer.tsx:24 | the state copies the element's now-known duration |
| AudioPlayer.StoryPlayer.OnEnded | components/AudioPlayer.tsx:25-31 | the end of the track pauses the player and, with a Media Session, clears its state to "none" |
| AudioPlayer.StoryPlayer.OnPlay | components/AudioPlayer.tsx:199 | the element's `play` event makes the button say playing |
| AudioPlayer.StoryPlayer.OnPause | components/AudioPlayer.tsx:200 | the element's `pause` event makes the button say paused |
| AudioPlayer.StoryPlayer.TogglePlayPause | components/AudioPlayer.tsx:108-130 | pausing reports "paused" and a resolved play reports "playing"; a rejected play leaves the player paused and the session state as it was; with no story nothing changes |
| AudioPlayer.StoryPlayer.HandleStop | components/AudioPlayer.tsx:132-144 | stop leaves the element paused at 0, the state stopped at 0 and the session "none"; with no story nothing changes |
| AudioPlayer.StoryPlayer.HandleSeek | components/AudioPlayer.tsx:146-153 | the slider value goes to the element and the state alike, without clamping |
| AudioPlayer.StoryPlayer.HandleVolumeChange | components/AudioPlayer.tsx:155-162 | the volume slider's value, one of 0, 0.1, …, 1, goes to the element and the state alike |
| AudioPlayer.StoryPlayer.SessionPlay | components/AudioPlayer.tsx:56-59 | as written: the state says playing whatever `play()` does |
| AudioPlayer.StoryPlayer.SessionPlayAwaited | components/AudioPlayer.tsx:56-59 | with the promise awaited, the state says playing iff `play()` resolves, and the button stays in step with the element |
| AudioPlayer.StoryPlayer.SessionPause | components/AudioPlayer.tsx:61-64 | the element pauses and the state follows; the session state is not touched |
| AudioPlayer.StoryPlayer.SessionStop | components/AudioPlayer.tsx:66-71 | the element pauses at 0 and the state is stopped at 0 |
| AudioPlayer.StoryPlayer.SessionSeekBackward | components/AudioPlayer.tsx:73-76 | the element moves back by the offset or 10 s, never before 0; the state waits for the next tick |
| AudioPlayer.StoryPlayer.SessionSeekForward | components/AudioPlayer.tsx:78-81 | the element moves ahead by the offset or 10 s, never past the end; with the duration unknown nothing moves |
| AudioPlayer.StoryPlayer.SessionSeekTo | components/AudioPlayer.tsx:83-87 | the element jumps to a truthy seek time; a missing time or a seek to 0 is ignored |
| AudioPlayer.StoryPlayer.SyncPositionState | components/AudioPlayer.tsx:98-106 | the effect pushes the position update when there is one, and otherwise keeps the earlier state; a pushed state inside the track is acceptable |
| AudioPlayer.RejectedSessionPlayDesyncs | components/AudioPlayer.tsx:56-59 | a rejected Media Session play leaves the button saying playing over a paused element |
| AudioPlayer.CaptionsAtLoad | __tests__/AudioPlayer.test.tsx:100-105 | once the metadata reports 100 s, the captions read "0:00" and "1:40" |

## Left out

- Network fetching of the stories, server rendering, the wake lock, the star field, the donation button and the tag filter's select box. These are I/O, OS APIs, animation or pure markup. The filter's only rule, that clearing sends "", is the browser's empty-tag case.
- Media Session metadata and artwork, the registration and removal of listeners, and all styling and markup. The bottom-sheet player's cleanup removes only the element listeners, so its Media Session handlers stay registered after it closes; the model does not follow the player past closing.
- A change of story on a mounted bottom-sheet player. `story` is fixed per player, and effects re-running for a new story are not modelled.
- The element's own movement during playback. The element's position changes only through the ticks the listeners receive. Its clamping of a seek beyond the end and infinite (streaming) durations are not modelled.
- Floating-point rounding. Times are exact reals, and a NaN seek offset or seek time is not modelled.
- Text.Lower: lower-cases ASCII letters only, not full Unicode case mapping.
- StringOrder.Less: compares characters by code point. JavaScript's default sort compares UTF-16 code units, which differ only outside the Basic Multilingual Plane.
- AudioPlayer.StoryPlayer.SessionSeekBackward and AudioPlayer.StoryPlayer.SessionSeekForward: require a non-negative offset. The platform supplies one, so negative offsets are not modelled.
- AudioPlayer.StoryPlayer.SessionPlay, AudioPlayer.StoryPlayer.SessionPlayAwaited and WelcomeIntro.IntroPlayer.TogglePlayPause: require that a rejected `play()` comes from a paused element. A playing element's `play()` always resolves.
- Pauses and plays from outside the welcome card: only the pause is modelled (WelcomeIntro.IntroPlayer.ExternalPause), since it is enough to show the button falling out of step; an outside play would do the same the other way round.
- AudioPlayer.StoryPlayer.SyncPositionState: `setPositionState` can throw for a position beyond the duration. That exception is not modelled; the ensures only shows it cannot occur while the position lies inside the track.
- The content studio's own handling of an empty string in a required field. Only presence and length are modelled.
- Where a test and the code disagree, the model follows the code:
  - the placeholder cover is `height=180` (the card test expects `height=200`);
  - the "1:40" caption needs the metadata event, which the player test never fires.

## Findings

| source | as written | input that shows it | evidently intended | confidence | as-written member | corrected member |
|---|---|---|---|---|---|---|
| components/AudioPlayer.tsx:56-59 | the Media Session "play" handler calls `audio.play()` without awaiting it and sets `isPlaying` to true unconditionally | a "play" command from the lock screen while the browser refuses playback (an autoplay block): the promise rejects and the element stays paused | set `isPlaying` only once `play()` resolves, and false on rejection, as the on-screen toggle does | medium, not executed | AudioPlayer.RejectedSessionPlayDesyncs | AudioPlayer.StoryPlayer.SessionPlayAwaited |
