/**
 * The admin comments tab (app/admin/content/CommentsTab.tsx): the search and
 * user filters, the relative-time label, and the delete handler's state.
 */
module CommentsTab {
  import opened Wrappers
  import opened Seqs
  import opened Text

  /**
   * A fetched comment. `username` is `None` when the joined profile or its
   * username is null; `postTitle` is `None` when the joined post is null.
   */
  datatype Comment = Comment(
    id: int,
    content: string,
    createdAt: int,
    userId: string,
    postId: int,
    username: Option<string>,
    postTitle: Option<string>)

  /** `x?.toLowerCase().includes(q.toLowerCase())`, false when x is absent. */
  predicate FieldMatches(x: Option<string>, q: string) {
    x.Some? && Contains(Lower(x.value), Lower(q))
  }

  predicate MatchesSearch(c: Comment, q: string) {
    q == "" || Contains(Lower(c.content), Lower(q)) || FieldMatches(c.username, q) || FieldMatches(c.postTitle, q)
  }

  predicate MatchesUser(c: Comment, f: string) {
    f == "" || FieldMatches(c.username, f)
  }

  function Matches(q: string, f: string): Comment -> bool {
    (c: Comment) => MatchesSearch(c, q) && MatchesUser(c, f)
  }

  /** `filteredComments`: the comments matching both filters, in their order. */
  function Filtered(comments: seq<Comment>, q: string, f: string): (r: seq<Comment>)
    ensures |r| <= |comments| && IsSubsequence(r, comments)
    ensures forall k :: 0 <= k < |r| ==> MatchesSearch(r[k], q) && MatchesUser(r[k], f)
    ensures forall k :: 0 <= k < |comments| && MatchesSearch(comments[k], q) && MatchesUser(comments[k], f) ==>
      comments[k] in r
  {
    FilterIsSubsequence(comments, Matches(q, f));
    Filter(comments, Matches(q, f))
  }

  /** With both filters empty every comment shows. */
  lemma EmptyFiltersShowAll(comments: seq<Comment>)
    ensures Filtered(comments, "", "") == comments
  {
    FilterAll(comments, Matches("", ""));
  }

  /** A non-empty user filter hides every comment without a username. */
  lemma UserFilterHidesAnonymous(comments: seq<Comment>, q: string, f: string)
    requires f != ""
    ensures forall k :: 0 <= k < |Filtered(comments, q, f)| ==> Filtered(comments, q, f)[k].username.Some?
  {
  }

  /** The header "Showing <shown> of <total> comments" never shows more than the total. */
  function Header(comments: seq<Comment>, q: string, f: string): (r: (nat, nat))
    ensures r.0 == |Filtered(comments, q, f)| && r.1 == |comments|
    ensures r.0 <= r.1
  {
    (|Filtered(comments, q, f)|, |comments|)
  }

  /**
   * `formatRelativeTime`: whole seconds since the timestamp (floored), then
   * minutes, hours or days ago; `dateText` stands for the locale date.
   */
  function FormatRelativeTime(at: int, now: int, dateText: string): (r: string)
    ensures var secs := (now - at) / 1000;
      && (secs < 60 ==> r == "Just now")
      && (60 <= secs < 3600 ==> 1 <= secs / 60 <= 59 && r == NatToString(secs / 60) + "m ago")
      && (3600 <= secs < 86400 ==> 1 <= secs / 3600 <= 23 && r == NatToString(secs / 3600) + "h ago")
      && (86400 <= secs < 604800 ==> 1 <= secs / 86400 <= 6 && r == NatToString(secs / 86400) + "d ago")
      && (604800 <= secs ==> r == dateText)
  {
    var diffInSeconds := (now - at) / 1000;
    if diffInSeconds < 60 then "Just now"
    else if diffInSeconds < 3600 then NatToString(diffInSeconds / 60) + "m ago"
    else if diffInSeconds < 86400 then NatToString(diffInSeconds / 3600) + "h ago"
    else if diffInSeconds < 604800 then NatToString(diffInSeconds / 86400) + "d ago"
    else dateText
  }

  /** A timestamp in the future reads "Just now". */
  lemma FutureIsJustNow(at: int, now: int, dateText: string)
    requires now < at
    ensures FormatRelativeTime(at, now, dateText) == "Just now"
  {
  }

  datatype ToastKind = Success | Error

  datatype Toast = Toast(message: string, kind: ToastKind)

  class CommentsView {
    var comments: seq<Comment>
    var loading: bool
    var deletingComment: Option<Comment>
    var isSubmitting: bool
    var toast: Option<Toast>

    constructor ()
      ensures comments == [] && loading && deletingComment.None? && !isSubmitting && toast.None?
    {
      comments := [];
      loading := true;
      deletingComment := None;
      isSubmitting := false;
      toast := None;
    }

    /** `fetchComments` once the query returned; a query error keeps the list. */
    method FetchComments(fetchFailed: bool, data: Option<seq<Comment>>)
      modifies this
      ensures comments == (if fetchFailed then old(comments) else if data.Some? then data.value else [])
      ensures !loading
      ensures deletingComment == old(deletingComment) && isSubmitting == old(isSubmitting) && toast == old(toast)
    {
      if !fetchFailed {
        comments := if data.Some? then data.value else [];
      }
      loading := false;
    }

    /**
     * `handleDeleteComment`: nothing without a selection; otherwise the
     * selection is cleared whatever the outcome, and a successful delete
     * refetches.
     */
    method HandleDeleteComment(deleteFailed: bool, fetchFailed: bool, data: Option<seq<Comment>>)
      modifies this
      ensures old(deletingComment).None? ==>
        comments == old(comments) && loading == old(loading) && deletingComment.None?
        && isSubmitting == old(isSubmitting) && toast == old(toast)
      ensures old(deletingComment).Some? ==> deletingComment.None? && !isSubmitting
      ensures old(deletingComment).Some? && deleteFailed ==>
        toast == Some(Toast("Failed to delete comment", Error)) && comments == old(comments)
      ensures old(deletingComment).Some? && !deleteFailed ==>
        toast == Some(Toast("Comment deleted successfully", Success)) && !loading
        && comments == (if fetchFailed then old(comments) else if data.Some? then data.value else [])
    {
      if deletingComment.None? {
        return;
      }
      isSubmitting := true;
      isSubmitting := false;
      deletingComment := None;
      if deleteFailed {
        toast := Some(Toast("Failed to delete comment", Error));
      } else {
        toast := Some(Toast("Comment deleted successfully", Success));
        FetchComments(fetchFailed, data);
      }
    }
  }
}
