/**
 * The admin schema of a story document: the field validations and the
 * preview line the content studio shows for each document.
 */
module StorySchema {
  import opened Maybe
  import opened Text
  import opened TimeFormat

  // ---------------------------------------------------------------------
  // storyStartTime: /^(\d{1,2}):([0-5]\d)$/
  // ---------------------------------------------------------------------

  /** The start-time pattern matched by hand: one or two digits, a colon, a digit 0-5, a digit, nothing else. */
  function IsStartTime(s: string): (ok: bool)
    ensures ok ==> 4 <= |s| <= 5 && s[|s| - 3] == ':' && AllDigits(s[..|s| - 3])
  {
    || (|s| == 4 && IsDigit(s[0]) && s[1] == ':' && '0' <= s[2] <= '5' && IsDigit(s[3]))
    || (|s| == 5 && IsDigit(s[0]) && IsDigit(s[1]) && s[2] == ':' && '0' <= s[3] <= '5' && IsDigit(s[4]))
  }

  /**
   * The pattern's two capture groups, read a second way: split the text at
   * its colons and check the two fields.
   */
  function StartTimeGroups(s: string): Option<(string, string)>
  {
    var parts := Split(s, ':');
    if && |parts| == 2
       && 1 <= |parts[0]| <= 2 && AllDigits(parts[0])
       && |parts[1]| == 2 && '0' <= parts[1][0] <= '5' && IsDigit(parts[1][1])
    then Some((parts[0], parts[1]))
    else None
  }

  /** The matcher accepts exactly the texts that split into the two groups, and the groups rebuild the text. */
  lemma StartTimeMatchesGroups(s: string)
    ensures IsStartTime(s) <==> StartTimeGroups(s).Some?
    ensures StartTimeGroups(s).Some? ==> s == StartTimeGroups(s).value.0 + ":" + StartTimeGroups(s).value.1
  {
    var parts := Split(s, ':');
    JoinSplit(s, ':');
    if |parts| == 2 {
      assert s == parts[0] + [':'] + parts[1];
    }
    if IsStartTime(s) {
      var i := if s[1] == ':' then 1 else 2;
      var a, b := s[..i], s[i + 1..];
      assert s == a + [':'] + b;
      assert ':' !in a && ':' !in b;
      SplitJoin([a, b], ':');
      assert Join([a, b], ':') == a + [':'] + b;
    }
  }

  /** A start time is exactly a clock display of at most five characters. */
  lemma StartTimeIsShortClock(s: string)
    ensures IsStartTime(s) <==> ClockShaped(s) && |s| <= 5
  {
    if ClockShaped(s) && |s| <= 5 {
      assert IsDigit(s[..|s| - 3][0]);
      assert |s| == 5 ==> IsDigit(s[..|s| - 3][1]);
      assert IsDigit(s[|s| - 2..][1]);
    }
    if IsStartTime(s) {
      assert AllDigits(s[..|s| - 3]);
      assert AllDigits(s[|s| - 2..]);
    }
  }

  /** An accepted start time has minutes 0..99 and seconds 0..59. */
  lemma StartTimeBounds(s: string)
    requires IsStartTime(s)
    ensures ClockShaped(s)
    ensures DigitsValue(s[..|s| - 3]) <= 99
    ensures DigitsValue(s[|s| - 2..]) <= 59
  {
    StartTimeIsShortClock(s);
    var m, sec := s[..|s| - 3], s[|s| - 2..];
    assert sec[..1][..0] == [] && m[..0] == [];
    if |m| == 2 {
      assert m[..1][..0] == [];
      assert DigitsValue(m[..1]) <= 9;
      assert DigitsValue(m) == 10 * DigitsValue(m[..1]) + DigitValue(m[1]);
    }
  }

  /** Every time the players display under 100 minutes is an acceptable start time. */
  lemma ClockIsStartTime(t: real)
    requires 0.0 <= t < 6000.0
    ensures IsStartTime(Clock(t))
  {
    ClockFields(t);
    assert (t / 60.0).Floor < 100;
    StartTimeIsShortClock(Clock(t));
  }

  /** The pattern's own examples pass; a 60th second, a one-digit second, three minute digits and surrounding text fail. */
  lemma StartTimeExamples()
    ensures IsStartTime("12:15") && IsStartTime("1:30") && IsStartTime("0:00") && IsStartTime("99:59")
    ensures !IsStartTime("1:60") && !IsStartTime("1:5") && !IsStartTime("123:00")
    ensures !IsStartTime(" 1:30") && !IsStartTime("1:30 ") && !IsStartTime("") && !IsStartTime("1:30:00")
  {
  }

  // ---------------------------------------------------------------------
  // Field validations
  // ---------------------------------------------------------------------

  /**
   * `Rule.required().min(lo).max(hi)` on a string field: present, and its
   * JavaScript `length` (UTF-16 code units) within `[lo, hi]`.
   */
  function LengthRule(value: Option<string>, lo: nat, hi: nat): (ok: bool)
    ensures ok ==> value.Some?
    ensures value.Some? ==> (ok <==> lo <= Utf16Length(value.value) <= hi)
  {
    match value
    case None => false
    case Some(v) => lo <= Utf16Length(v) <= hi
  }

  /** The title: required, 1 to 100 code units. */
  function TitleValid(title: Option<string>): (ok: bool)
    ensures ok <==> title.Some? && 1 <= Utf16Length(title.value) <= 100
  {
    LengthRule(title, 1, 100)
  }

  /** The description: required, 10 to 500 code units. */
  function DescriptionValid(description: Option<string>): (ok: bool)
    ensures ok <==> description.Some? && 10 <= Utf16Length(description.value) <= 500
  {
    LengthRule(description, 10, 500)
  }

  /**
   * Length counts UTF-16 code units: a title of 51 characters beyond the
   * Basic Multilingual Plane (emoji, say) has length 102 and is rejected.
   */
  lemma AstralTitleTooLong(title: string)
    requires |title| == 51 && forall k :: 0 <= k < |title| ==> Astral(title[k])
    ensures !TitleValid(Some(title))
  {
  }

  /** The start time is optional; when given it must match the pattern. */
  function StartTimeFieldValid(value: Option<string>): (ok: bool)
    ensures value.None? ==> ok
    ensures value.Some? ==> (ok <==> StartTimeGroups(value.value).Some?)
  {
    StartTimeMatchesGroups(if value.Some? then value.value else "");
    value.None? || IsStartTime(value.value)
  }

  // ---------------------------------------------------------------------
  // Preview
  // ---------------------------------------------------------------------

  /** The fields the preview selects; any of them may be missing from a document. */
  datatype Selection = Selection(
    title: Option<string>,
    subtitle: Option<string>,
    tags: Option<string>,
    isPinned: Option<bool>)

  datatype Preview = Preview(title: Option<string>, subtitle: string)

  const PinPrefix: string := "\U{1F4CC} "
  const TagsSeparator: string := " \U{2022} Tags: "

  /** A value interpolated into a template literal: a missing one reads "undefined". */
  function Interpolated(v: Option<string>): string
  {
    match v
    case Some(s) => s
    case None => "undefined"
  }

  /**
   * `preview.prepare`: a pinned document's title gets the pin, and the
   * subtitle lists the tags after the description. The preview has a title
   * exactly when the document has one or is pinned (a pinned untitled
   * document reads "undefined" after the pin).
   */
  function Prepare(sel: Selection): (p: Preview)
    ensures p.title.Some? <==> sel.title.Some? || sel.isPinned == Some(true)
    ensures |p.subtitle| == |Interpolated(sel.subtitle)| + |TagsSeparator| + |Interpolated(sel.tags)|
  {
    Preview(
      if sel.isPinned == Some(true) then Some(PinPrefix + Interpolated(sel.title)) else sel.title,
      Interpolated(sel.subtitle) + TagsSeparator + Interpolated(sel.tags))
  }

  /**
   * Pinning only prefixes the title with the pin (an unpinned title passes
   * through untouched), and the subtitle is the description, the separator,
   * then the tags: with `Prepare`'s length, these three slices cover it.
   */
  lemma PreviewReadsBack(sel: Selection)
    ensures var p := Prepare(sel);
      && (sel.isPinned != Some(true) ==> p.title == sel.title)
      && (sel.isPinned == Some(true) ==>
            p.title.Some? && |p.title.value| >= |PinPrefix|
            && p.title.value[..|PinPrefix|] == PinPrefix
            && p.title.value[|PinPrefix|..] == Interpolated(sel.title))
      && p.subtitle[..|Interpolated(sel.subtitle)|] == Interpolated(sel.subtitle)
      && p.subtitle[|Interpolated(sel.subtitle)|..|Interpolated(sel.subtitle)| + |TagsSeparator|] == TagsSeparator
      && p.subtitle[|p.subtitle| - |Interpolated(sel.tags)|..] == Interpolated(sel.tags)
  {
    var p := Prepare(sel);
    var d, t := Interpolated(sel.subtitle), Interpolated(sel.tags);
    var head := d + TagsSeparator;
    assert p.subtitle == head + t;
    assert p.subtitle[..|d|] == head[..|d|];
    assert p.subtitle[|d|..|d| + |TagsSeparator|] == head[|d|..];
  }
}
