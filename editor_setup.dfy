/**
 * src/components/EditorSetupModal.tsx, `handleSubmit`: the title and the
 * comma-separated tags the writer typed, handed to the editor.
 */
module EditorSetup {
  import Text
  import Seqs

  const DEFAULT_TITLE: string := "Untitled Post"

  /** `pieces.map(tag => tag.trim())` */
  function TrimAll(pieces: seq<string>): (r: seq<string>)
    ensures |r| == |pieces|
    ensures forall i :: 0 <= i < |pieces| ==> r[i] == Text.Trim(pieces[i])
    decreases |pieces|
  {
    if pieces == [] then [] else [Text.Trim(pieces[0])] + TrimAll(pieces[1..])
  }

  /** A tag as `handleSubmit` produces them: non-empty, no white space at its ends, no ','. */
  predicate CleanTag(t: string) {
    t != "" && !Text.IsSpace(t[0]) && !Text.IsSpace(t[|t| - 1]) && ',' !in t
  }

  /** Every character of `t` occurs in `input`. */
  predicate CharsFrom(t: string, input: string) {
    forall c :: c in t ==> c in input
  }

  /** A trimmed piece of the split input: trimmed, comma-free, made of the input's characters. */
  lemma TrimmedPiece(piece: string, input: string)
    requires ',' !in piece && CharsFrom(piece, input)
    ensures Text.Trim(piece) == "" || CleanTag(Text.Trim(piece))
    ensures CharsFrom(Text.Trim(piece), input)
  {
  }

  lemma TrimmedPieces(input: string)
    ensures forall t :: t in TrimAll(Text.Split(input, ',')) ==> t == "" || CleanTag(t)
    ensures forall t :: t in TrimAll(Text.Split(input, ',')) ==> CharsFrom(t, input)
  {
    var pieces := Text.Split(input, ',');
    var trimmed := TrimAll(pieces);
    Text.SplitChars(input, ',');
    forall i | 0 <= i < |trimmed|
      ensures trimmed[i] == "" || CleanTag(trimmed[i])
      ensures CharsFrom(trimmed[i], input)
    {
      assert pieces[i] in pieces;
      TrimmedPiece(pieces[i], input);
    }
  }

  /** `tag !== ''` */
  predicate NonEmpty(t: string) {
    t != ""
  }

  /** Filtering keeps every non-empty piece, as often as it occurs, and nothing else. */
  lemma KeptPieces(pieces: seq<string>)
    ensures forall t :: t in Seqs.Filter(pieces, NonEmpty) <==> t in pieces && t != ""
    ensures forall t :: multiset(Seqs.Filter(pieces, NonEmpty))[t] == if t != "" then multiset(pieces)[t] else 0
  {
  }

  /** `tags.split(',').map(tag => tag.trim()).filter(tag => tag !== '')` */
  function ParseTags(input: string): (tags: seq<string>)
    ensures forall t :: t in tags ==> CleanTag(t)
    ensures forall t :: t in tags ==> CharsFrom(t, input)
    ensures Seqs.IsSubseq(tags, TrimAll(Text.Split(input, ',')))
    ensures forall t :: t in tags <==> t in TrimAll(Text.Split(input, ',')) && t != ""
    ensures forall t :: multiset(tags)[t] == if t != "" then multiset(TrimAll(Text.Split(input, ',')))[t] else 0
  {
    TrimmedPieces(input);
    var pieces := TrimAll(Text.Split(input, ','));
    KeptPieces(pieces);
    Seqs.Filter(pieces, NonEmpty)
  }

  /** Input made only of commas and white space gives no tags. */
  lemma OnlySeparatorsGiveNoTags(input: string)
    requires forall i :: 0 <= i < |input| ==> input[i] == ',' || Text.IsSpace(input[i])
    ensures ParseTags(input) == []
  {
    var pieces := Text.Split(input, ',');
    var trimmed := TrimAll(pieces);
    Text.SplitChars(input, ',');
    forall i | 0 <= i < |trimmed|
      ensures trimmed[i] == ""
    {
      var piece := pieces[i];
      assert piece in pieces;
      forall k | 0 <= k < |piece|
        ensures Text.IsSpace(piece[k])
      {
        assert piece[k] in piece;
      }
      Text.TrimAllSpace(piece);
    }
    Seqs.FilterDropsAll(trimmed, NonEmpty);
  }

  /** Trimming leaves a clean tag alone. */
  lemma TrimClean(t: string)
    requires CleanTag(t)
    ensures Text.Trim(t) == t
  {
    assert Text.TrimStart(t) == t;
  }

  lemma {:induction false} TrimAllClean(tags: seq<string>)
    requires forall i :: 0 <= i < |tags| ==> CleanTag(tags[i])
    ensures TrimAll(tags) == tags
    decreases |tags|
  {
    if tags != [] {
      TrimClean(tags[0]);
      TrimAllClean(tags[1..]);
    }
  }

  /** Clean tags joined with ',' parse back to themselves, in order. */
  lemma CleanTagsRoundTrip(tags: seq<string>)
    requires |tags| >= 1
    requires forall t :: t in tags ==> CleanTag(t)
    ensures ParseTags(Text.Join(tags, ',')) == tags
  {
    Text.SplitJoin(tags, ',');
    forall i | 0 <= i < |tags|
      ensures CleanTag(tags[i])
    {
      assert tags[i] in tags;
    }
    TrimAllClean(tags);
    Seqs.FilterKeepsAll(tags, NonEmpty);
  }

  /** Parsing is canonical: writing the parsed tags back out and parsing again gives the same tags. */
  lemma ParseTagsCanonical(input: string)
    requires ParseTags(input) != []
    ensures ParseTags(Text.Join(ParseTags(input), ',')) == ParseTags(input)
  {
    CleanTagsRoundTrip(ParseTags(input));
  }

  /** What `onSubmit` receives: the title as typed, and the parsed tags. */
  datatype Setup = Setup(title: string, tags: seq<string>)

  function Submit(title: string, tagsInput: string): (r: Setup)
    ensures r.title == title
    ensures r.tags == ParseTags(tagsInput)
  {
    Setup(title, ParseTags(tagsInput))
  }

  /** Submitting the untouched form gives the default title and no tags. */
  lemma UntouchedForm(title: string, tagsInput: string)
    requires title == DEFAULT_TITLE && |tagsInput| == 0
    ensures Submit(title, tagsInput) == Setup("Untitled Post", [])
  {
    OnlySeparatorsGiveNoTags(tagsInput);
  }
}
