/**
 * The like button's client state (components/LikeButton.tsx): the optimistic
 * flip on click and the revert or server sync when the action replies.
 */
module LikeButton {
  import opened Wrappers
  import LikeActions

  /** The reply as the client reads it: `error`, `likeCount` and `isLiked` may each be absent. */
  datatype Reply = Reply(error: Option<string>, likeCount: Option<int>, isLiked: Option<bool>)

  /**
   * The button's state. `clickedLiked` is the `isLiked` captured by the click
   * handler's closure, which the revert restores.
   */
  datatype ButtonState = ButtonState(likeCount: int, isLiked: bool, isPending: bool, clickedLiked: bool)

  /** The reply object the server action produces. */
  function ReplyOf(r: LikeActions.ToggleResult): (reply: Reply)
    ensures r.Failed? ==> reply.error == Some(r.error) && reply.likeCount.None?
    ensures r.Toggled? ==> reply == Reply(None, Some(r.likeCount), Some(r.isLiked))
  {
    match r
    case Failed(e) => Reply(Some(e), None, None)
    case Toggled(n, liked) => Reply(None, Some(n), Some(liked))
  }

  function Initial(initialLikeCount: int, initialIsLiked: bool): ButtonState {
    ButtonState(initialLikeCount, initialIsLiked, false, initialIsLiked)
  }

  /** A click: ignored while the button is disabled, otherwise the optimistic flip. */
  function Click(s: ButtonState): (t: ButtonState)
    ensures s.isPending ==> t == s
    ensures !s.isPending ==>
      && t.isLiked == !s.isLiked
      && t.likeCount == (if s.isLiked then s.likeCount - 1 else s.likeCount + 1)
      && t.isPending && t.clickedLiked == s.isLiked
  {
    if s.isPending then s
    else ButtonState(if s.isLiked then s.likeCount - 1 else s.likeCount + 1, !s.isLiked, true, s.isLiked)
  }

  /** The transition finishing with `reply`. An empty error string is falsy and is not an error. */
  function Finish(s: ButtonState, initialLikeCount: int, reply: Reply): (t: ButtonState)
    ensures !t.isPending
    ensures reply.error.Some? && reply.error.value != "" ==>
      t.isLiked == s.clickedLiked && t.likeCount == initialLikeCount
    ensures (reply.error.None? || reply.error.value == "") && reply.likeCount.Some? ==>
      t.likeCount == reply.likeCount.value
      && t.isLiked == (reply.isLiked.Some? && reply.isLiked.value)
    ensures (reply.error.None? || reply.error.value == "") && reply.likeCount.None? ==>
      t.likeCount == s.likeCount && t.isLiked == s.isLiked
  {
    if reply.error.Some? && reply.error.value != "" then
      s.(likeCount := initialLikeCount, isLiked := s.clickedLiked, isPending := false)
    else if reply.likeCount.Some? then
      s.(likeCount := reply.likeCount.value,
         isLiked := reply.isLiked.Some? && reply.isLiked.value,
         isPending := false)
    else s.(isPending := false)
  }

  /** The optimistic step keeps `likeCount - (isLiked ? 1 : 0)`. */
  lemma ClickKeepsBase(s: ButtonState)
    ensures var t := Click(s);
      t.likeCount - (if t.isLiked then 1 else 0) == s.likeCount - (if s.isLiked then 1 else 0)
  {
  }

  /** The button is disabled between a click and its reply: a second click changes nothing. */
  lemma PendingIgnoresClicks(s: ButtonState)
    requires !s.isPending
    ensures Click(Click(s)) == Click(s)
  {
  }

  /**
   * A failed second click puts back its own `isLiked` but the count from the
   * props: starting from 5 likes, liking, then a failed unlike shows 5 likes
   * while liked.
   */
  lemma RevertUsesInitialCount()
    ensures var s1 := Finish(Click(Initial(5, false)), 5, ReplyOf(LikeActions.Toggled(6, true)));
      var s2 := Finish(Click(s1), 5, ReplyOf(LikeActions.Failed("network")));
      s1.likeCount == 6 && s1.isLiked && s2.isLiked && s2.likeCount == 5
  {
  }

  /** A successful round trip with the server adopts the server's count and state. */
  lemma ServerReplyWins(s: ButtonState, initialLikeCount: int, n: int, liked: bool)
    ensures var t := Finish(Click(s), initialLikeCount, ReplyOf(LikeActions.Toggled(n, liked)));
      t.likeCount == n && t.isLiked == liked && !t.isPending
  {
  }

  class LikeButtonView {
    const initialLikeCount: int
    var likeCount: int
    var isLiked: bool
    var isPending: bool
    var clickedLiked: bool

    function State(): ButtonState
      reads this
    {
      ButtonState(likeCount, isLiked, isPending, clickedLiked)
    }

    /** `disabled={isPending}`: the button is disabled exactly when a click would do nothing. */
    function Disabled(): (d: bool)
      reads this
      ensures d <==> Click(State()) == State()
    {
      isPending
    }

    constructor (initialLikeCount: int, initialIsLiked: bool)
      ensures this.initialLikeCount == initialLikeCount
      ensures likeCount == initialLikeCount && isLiked == initialIsLiked && !isPending
      ensures State() == Initial(initialLikeCount, initialIsLiked)
    {
      this.initialLikeCount := initialLikeCount;
      likeCount := initialLikeCount;
      isLiked := initialIsLiked;
      isPending := false;
      clickedLiked := initialIsLiked;
    }

    /** `handleLike`: the optimistic update, then the transition starts. */
    method HandleLike()
      modifies this
      ensures State() == Click(old(State()))
    {
      if isPending {
        return;
      }
      clickedLiked := isLiked;
      likeCount := if isLiked then likeCount - 1 else likeCount + 1;
      isLiked := !isLiked;
      isPending := true;
    }

    /** The transition's continuation once `togglePostLike` replies. */
    method OnReply(reply: Reply)
      modifies this
      ensures State() == Finish(old(State()), initialLikeCount, reply)
    {
      if reply.error.Some? && reply.error.value != "" {
        isLiked := clickedLiked;
        likeCount := initialLikeCount;
      } else if reply.likeCount.Some? {
        likeCount := reply.likeCount.value;
        isLiked := reply.isLiked.Some? && reply.isLiked.value;
      }
      isPending := false;
    }
  }
}
