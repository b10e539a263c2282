/** The story record the listing returns, and the format of its `tags` field. */
module Stories {
  import opened Maybe
  import opened Text

  /**
   * A story as the content query returns it. `tags` and `imageUrl` may be
   * missing from a record (None); the other fields are always present.
   */
  datatype Story = Story(
    id: string,
    title: string,
    description: string,
    tags: Option<string>,
    audioUrl: string,
    imageUrl: Option<string>)

  /** `pieces.map((tag) => tag.trim())`. */
  function TrimAll(pieces: seq<string>): seq<string>
  {
    seq(|pieces|, k requires 0 <= k < |pieces| => Trim(pieces[k]))
  }

  /**
   * `text.split(",").map((tag) => tag.trim())`: the comma-separated tags,
   * trimmed, in order; one per field, so one more than there are commas.
   */
  function TagList(text: string): (tags: seq<string>)
    ensures |tags| == Occurrences(text, ',') + 1
  {
    SplitCount(text, ',');
    TrimAll(Split(text, ','))
  }

  /** Trimming a comma-free piece of a text leaves a comma-free piece of that text. */
  lemma TrimmedPiece(text: string, p: string)
    requires Includes(text, p) && ',' !in p
    ensures ',' !in Trim(p) && Includes(text, Trim(p))
  {
    var tag := Trim(p);
    var off := TrimOffset(p);
    forall i | 0 <= i < |tag|
      ensures tag[i] != ','
    {
      assert tag[i] == p[off + i];
    }
    assert OccursAt(p, tag, off);
    IncludesIff(p, tag);
    IncludesTransitive(text, p, tag);
  }

  /** The `k`-th tag is the `k`-th field trimmed: free of commas, and a piece of the text. */
  lemma TagListPiece(text: string, k: nat)
    requires k < |Split(text, ',')|
    ensures ',' !in Trim(Split(text, ',')[k]) && Includes(text, Trim(Split(text, ',')[k]))
  {
    SplitPieceOccurs(text, ',', k);
    TrimmedPiece(text, Split(text, ',')[k]);
  }

  /**
   * One tag per comma-separated field (so one more than there are commas,
   * duplicates kept), each the field with its surrounding white space
   * removed, each a piece of the original text and free of commas.
   */
  lemma TagListShape(text: string)
    ensures forall k :: 0 <= k < |TagList(text)| ==>
      && TagList(text)[k] == Trim(Split(text, ',')[k])
      && ',' !in TagList(text)[k]
      && Includes(text, TagList(text)[k])
  {
    forall k | 0 <= k < |TagList(text)|
      ensures ',' !in TagList(text)[k] && Includes(text, TagList(text)[k])
    {
      TagListPiece(text, k);
    }
  }
}
