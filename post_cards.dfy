/**
 * The card components' pure parts: the content preview and likes label of
 * src/components/PostCard.tsx and src/components/DraftsPostCard.tsx, their
 * navigation targets, and the draft card's delete sequence. The preview is
 * taken of the text `convert` extracts from the post's HTML; that extraction
 * is not part of this model.
 */
module PostCards {
  import opened Wrappers
  import Text
  import Models
  import Middleware

  const PREVIEW_LENGTH: nat := 200
  /** "..." as code units. */
  const ELLIPSIS: seq<Text.CodeUnit> := [46, 46, 46]

  /**
   * `text.length >= 200 ? `${text.slice(0, 200)}...` : text`, on the
   * JavaScript string: lengths and the cut are in UTF-16 code units, so the
   * cut can fall between the two halves of a surrogate pair.
   */
  function Preview(text: seq<Text.CodeUnit>): (r: seq<Text.CodeUnit>)
    ensures |text| < PREVIEW_LENGTH ==> r == text
    ensures |text| >= PREVIEW_LENGTH ==> |r| == PREVIEW_LENGTH + 3 && r[PREVIEW_LENGTH..] == ELLIPSIS
    ensures |r| <= PREVIEW_LENGTH + 3
    ensures var k := if |text| < PREVIEW_LENGTH then |text| else PREVIEW_LENGTH; k <= |r| && r[..k] == text[..k]
  {
    if |text| >= PREVIEW_LENGTH then text[..PREVIEW_LENGTH] + ELLIPSIS else text
  }

  /** Previewing a preview changes nothing. */
  lemma PreviewIdempotent(text: seq<Text.CodeUnit>)
    ensures Preview(Preview(text)) == Preview(text)
  {
    if |text| >= PREVIEW_LENGTH {
      var p := Preview(text);
      assert p[..PREVIEW_LENGTH] == text[..PREVIEW_LENGTH];
    }
  }

  /** Long texts that agree on their first 200 code units look the same; the rest is never shown. */
  lemma PreviewSeesOnlyThePrefix(a: seq<Text.CodeUnit>, b: seq<Text.CodeUnit>)
    requires |a| >= PREVIEW_LENGTH && |b| >= PREVIEW_LENGTH
    requires a[..PREVIEW_LENGTH] == b[..PREVIEW_LENGTH]
    ensures Preview(a) == Preview(b)
  {
  }

  /** A text of exactly 200 code units is shown whole, with "..." after it. */
  lemma ExactlyTwoHundred(text: seq<Text.CodeUnit>)
    requires |text| == PREVIEW_LENGTH
    ensures Preview(text) == text + ELLIPSIS
  {
    assert text[..PREVIEW_LENGTH] == text;
  }

  /** 100 characters outside the Basic Multilingual Plane are 200 code units: they get the ellipsis. */
  lemma PreviewCountsCodeUnits(s: string)
    requires |s| == 100 && forall i :: 0 <= i < |s| ==> s[i] as int >= 0x1_0000
    ensures Preview(Text.Utf16(s)) == Text.Utf16(s) + ELLIPSIS
  {
    ExactlyTwoHundred(Text.Utf16(s));
  }

  /** `likes.length === 1 ? 'like' : 'likes'` */
  function LikesLabel(count: nat): (word: string)
    ensures word == "like" <==> count == 1
    ensures word == "likes" <==> count != 1
  {
    if count == 1 then "like" else "likes"
  }

  /** A page path that ends in a post id. */
  function PrefixedPath(prefix: string, id: string): (path: string)
    ensures Text.StartsWith(path, prefix) && path[|prefix|..] == id
  {
    prefix + id
  }

  /** "Read more" on a post card. */
  function ReadMorePath(id: string): string {
    PrefixedPath("/post/", id)
  }

  /** "Edit" on a draft card. */
  function EditPath(id: string): string {
    PrefixedPath("/editor?id=", id)
  }

  /** Different posts lead to different pages. */
  lemma PathsInjective(a: string, b: string)
    ensures ReadMorePath(a) == ReadMorePath(b) ==> a == b
    ensures EditPath(a) == EditPath(b) ==> a == b
  {
  }

  /**
   * A post's own page is never behind the sign-in redirect: an ObjectId is
   * hexadecimal, so "/post/{id}" cannot begin with "/post/create".
   */
  lemma ReadMoreIsPublic(id: string)
    requires Models.IsObjectId(id)
    ensures !Middleware.IsProtected(ReadMorePath(id))
  {
    var path := ReadMorePath(id);
    Middleware.ProtectedIff(path);
    assert path[1] == 'p';
    assert Models.IsHexDigit(id[1]);
    assert path[7] == id[1];
    assert !Text.StartsWith(path, "/post/create") by {
      assert "/post/create"[7] == 'r';
    }
  }

  /** The page behind "Edit" is protected: its path name is "/editor". */
  lemma EditIsProtected()
    ensures Middleware.IsProtected("/editor")
  {
    Middleware.ProtectedIff("/editor");
  }

  /** How the DELETE request ended: `fetch` rejected, or a response with `res.ok`. */
  datatype FetchOutcome = NetworkError | Answered(ok: bool)

  /**
   * `handleDelete(postId)` on a draft card whose post id is `cardId`:
   * `request` is the URL sent a DELETE, `removed` the id passed to `onDelete`,
   * `toast` the message shown.
   */
  method HandleDelete(postId: string, cardId: string, confirmed: bool, outcome: FetchOutcome)
    returns (request: Option<string>, removed: Option<string>, toast: Option<string>)
    ensures !confirmed ==> request.None? && removed.None? && toast.None?
    ensures confirmed ==> request == Some("/api/post?id=" + postId)
    ensures removed.Some? <==> confirmed && outcome == Answered(true)
    ensures removed.Some? ==> removed.value == cardId && toast == Some("Draft deleted successfully.")
    ensures confirmed && outcome == Answered(false) ==> toast == Some("Failed to delete draft.")
    ensures confirmed && outcome == NetworkError ==> toast == Some("Something went wrong.")
  {
    if !confirmed {
      return None, None, None;
    }
    request := Some("/api/post?id=" + postId);
    match outcome
    case NetworkError =>
      removed := None;
      toast := Some("Something went wrong.");
    case Answered(ok) =>
      if ok {
        removed := Some(cardId);
        toast := Some("Draft deleted successfully.");
      } else {
        removed := None;
        toast := Some("Failed to delete draft.");
      }
  }
}
