/**
 * The post modal of the blog page (blog/static/blog/js/script.js): the
 * like and dislike buttons with their counters, the comment form's
 * client-side checks and its submit button, the character counter, and
 * the unit choice of formatNumber. Server replies are inputs: `None`
 * stands for a request that failed or whose response was not OK, since
 * likePost and submitComment then return null.
 */
module PostModal {
  import opened Wrappers
  import opened Text
  import opened Models
  import Views
  import Admin

  // ---------------------------------------------------------------- formatNumber

  datatype Scale = Units | Thousands | Millions

  /** The unit formatNumber writes a count in: millions from 1000000,
      thousands from 1000, the plain number below. */
  function ScaleOf(num: int): (s: Scale)
    ensures s == Millions <==> num >= 1000000
    ensures s == Thousands <==> 1000 <= num < 1000000
    ensures s == Units <==> num < 1000
  {
    if num >= 1000000 then Millions else if num >= 1000 then Thousands else Units
  }

  function ScaleRank(s: Scale): nat {
    match s
    case Units => 0
    case Thousands => 1
    case Millions => 2
  }

  /** A larger count is never written in a smaller unit. */
  lemma ScaleMonotone(m: int, n: int)
    requires m <= n
    ensures ScaleRank(ScaleOf(m)) <= ScaleRank(ScaleOf(n))
  {
  }

  // ---------------------------------------------------------------- reaction buttons

  /** Whether the like and the dislike button carry `active`, from the
      `user_reaction` text of a reply. */
  function ButtonFlags(userReaction: Option<string>): (flags: (bool, bool))
    ensures flags.0 <==> userReaction == Some("like")
    ensures flags.1 <==> userReaction == Some("dislike")
    ensures !(flags.0 && flags.1)
  {
    (userReaction == Some("like"), userReaction == Some("dislike"))
  }

  /** Through the reply, the buttons show the stored reaction: the like
      button is active exactly when a like is stored for the address, the
      dislike button exactly when a dislike is. */
  lemma ButtonsShowStoredReaction(stored: Option<bool>)
    ensures ButtonFlags(Views.ReactionName(stored)) == (stored == Some(true), stored == Some(false))
  {
  }

  /** The verb of the reaction toast for the reply's `action` text: anything
      other than "removed" or "changed" reads as an addition. */
  function ActionText(action: string): (text: string)
    ensures text == "eliminada" <==> action == "removed"
    ensures text == "cambiada" <==> action == "changed"
    ensures text == "agregada" <==> action != "removed" && action != "changed"
  {
    if action == "removed" then "eliminada" else if action == "changed" then "cambiada" else "agregada"
  }

  /** Each action the view reports gets its own verb. */
  lemma ActionTextOfReply(a: Views.LikeAction, b: Views.LikeAction)
    ensures a == Views.LikeAction.Added ==> ActionText(a.Name()) == "agregada"
    ensures a == Views.LikeAction.Removed ==> ActionText(a.Name()) == "eliminada"
    ensures a == Views.LikeAction.Changed ==> ActionText(a.Name()) == "cambiada"
    ensures ActionText(a.Name()) == ActionText(b.Name()) ==> a == b
  {
  }

  const LikeErrorToast := "Error al procesar tu reacción"

  function ReactionToast(action: Views.LikeAction, isLike: bool): string {
    "Reacción " + ActionText(action.Name()) + ": " + (if isLike then "like" else "dislike")
  }

  /** The engagement section of an open post. */
  class ReactionButtons {
    var likes: nat
    var dislikes: nat
    var likeActive: bool
    var dislikeActive: bool

    /** displayPostData: the counters and active flags the post's data gives. */
    constructor (likes: nat, dislikes: nat, userReaction: Option<string>)
      ensures this.likes == likes && this.dislikes == dislikes
      ensures (likeActive, dislikeActive) == ButtonFlags(userReaction)
    {
      this.likes, this.dislikes := likes, dislikes;
      likeActive, dislikeActive := userReaction == Some("like"), userReaction == Some("dislike");
    }

    /** The click handler once likePost settles: only a successful reply
        changes the buttons, setting both counters and both flags from it;
        every outcome ends in a toast. */
    method HandleLikeResult(reply: Option<Views.LikeReply>, isLike: bool) returns (toast: string)
      modifies this
      ensures !(reply.Some? && reply.value.LikeDone?) ==> unchanged(this) && toast == LikeErrorToast
      ensures reply.Some? && reply.value.LikeDone? ==>
                && likes == reply.value.likes && dislikes == reply.value.dislikes
                && (likeActive, dislikeActive) == ButtonFlags(reply.value.userReaction)
                && toast == ReactionToast(reply.value.action, isLike)
    {
      if reply.None? || reply.value.LikeFailed? {
        return LikeErrorToast;
      }
      var r := reply.value;
      likes, dislikes := r.likes, r.dislikes;
      likeActive := r.userReaction == Some("like");
      dislikeActive := r.userReaction == Some("dislike");
      toast := ReactionToast(r.action, isLike);
    }
  }

  /** A click on a reaction button, end to end: the view handles the
      request, then the buttons show its reply. When the post's counters
      followed its stored reactions, the buttons end up showing exactly
      the reaction stored for the address and the post's true counts. */
  method ReactAndShow(db: Database, buttons: ReactionButtons, id: PostId, isLike: bool, ip: Ip)
      returns (toast: string)
    requires db.Valid() && id in db.posts && db.AllTallied()
    modifies db, db.posts[id], buttons
    ensures db.Valid() && db.AllTallied() && id in db.posts
    ensures buttons.likeActive <==> Views.Lookup(db.reactions, ReactionKey(id, ip)) == Some(true)
    ensures buttons.dislikeActive <==> Views.Lookup(db.reactions, ReactionKey(id, ip)) == Some(false)
    ensures Counts(buttons.likes, buttons.dislikes) == Tally(db.reactions, id)
  {
    var reply := Views.LikePostAjax(db, Some(id), Some(isLike), Some(ip));
    assert db.Tallied(id);
    toast := buttons.HandleLikeResult(Some(reply), isLike);
    ButtonsShowStoredReaction(Views.Lookup(db.reactions, ReactionKey(id, ip)));
  }

  // ---------------------------------------------------------------- comment form

  /** What the submit handler does with the form's fields: block with a
      message and send nothing, or send the stripped fields. */
  datatype ClientCheck =
    | Send(author: string, body: string, email: string)
    | Block(message: string)

  /** The submit handler's checks, on the stripped fields: both author and
      body must be non-empty, then the body at most 1000 characters. */
  function CheckCommentForm(author: string, body: string, email: string): (c: ClientCheck)
    ensures c.Send? <==> Trim(author) != [] && Trim(body) != [] && |Trim(body)| <= BodyMaxLength
    ensures c.Send? ==> c == Send(Trim(author), Trim(body), Trim(email))
    ensures c.Block? && (Trim(author) == [] || Trim(body) == []) ==>
              c.message == Views.CommentProblem.MissingFields.Message()
    ensures c.Block? && Trim(author) != [] && Trim(body) != [] ==>
              c.message == Views.CommentProblem.BodyTooLong.Message()
  {
    var a, b, e := Trim(author), Trim(body), Trim(email);
    if a == [] || b == [] then Block(Views.CommentProblem.MissingFields.Message())
    else if |b| > BodyMaxLength then Block(Views.CommentProblem.BodyTooLong.Message())
    else Send(a, b, e)
  }

  /** The browser's checks are the first two of the view's, with the same
      messages: whatever the form blocks the view would have refused with
      that message, and for what the form sends the view only has the
      author length and the email shape left to check (it strips the
      fields again, which changes nothing). */
  lemma {:induction false} FormAgreesWithView(postId: int, author: string, body: string, email: string)
    requires postId != 0
    ensures var c := CheckCommentForm(author, body, email);
            var verdict := Views.CheckComment(Some(postId), Trim(author), Trim(body), Trim(email));
            && (c.Block? ==> verdict.Some? && verdict.value.Message() == c.message)
            && (c.Send? ==> verdict == Views.CheckComment(Some(postId), Trim(c.author), Trim(c.body), Trim(c.email)))
            && (c.Send? ==> (verdict.None? <==>
                               |c.author| <= AuthorMaxLength && (c.email == [] || Views.EmailShape(c.email))))
  {
    var a, b, e := Trim(author), Trim(body), Trim(email);
    var c := CheckCommentForm(author, body, email);
    var verdict := Views.CheckComment(Some(postId), a, b, e);
    if a == [] || b == [] {
      assert verdict == Some(Views.MissingFields);
    } else if |b| > BodyMaxLength {
      assert verdict == Some(Views.BodyTooLong);
    } else {
      assert c == Send(a, b, e);
      assert Views.AllGiven(Some(postId), a, b);
      assert verdict.None? <==> |a| <= AuthorMaxLength && (e == [] || Views.EmailShape(e));
      TrimIdempotent(author);
      TrimIdempotent(body);
      TrimIdempotent(email);
    }
  }

  /** The spinner caption the submit button shows while a comment is sent. */
  const SendingCaption := "<i class=\"fas fa-spinner fa-spin\"></i> Enviando..."

  /** The comment form's submit button. While a comment is on its way the
      button is disabled and its original caption is kept aside. */
  class SubmitButton {
    var caption: string
    var disabled: bool
    var savedCaption: Option<string>

    ghost predicate Valid()
      reads this
    {
      disabled <==> savedCaption.Some?
    }

    constructor (caption: string)
      ensures Valid() && this.caption == caption && !disabled
    {
      this.caption := caption;
      disabled := false;
      savedCaption := None;
    }

    /** The submit event: a blocked form leaves the button alone and sends
        nothing; otherwise the caption is saved, the spinner shown and the
        button disabled while the stripped fields are sent. */
    method Submit(author: string, body: string, email: string) returns (outcome: ClientCheck)
      requires Valid() && !disabled
      modifies this
      ensures Valid()
      ensures outcome == CheckCommentForm(author, body, email)
      ensures outcome.Block? ==> unchanged(this)
      ensures outcome.Send? ==> savedCaption == Some(old(caption)) && caption == SendingCaption && disabled
    {
      outcome := CheckCommentForm(author, body, email);
      if outcome.Block? {
        return;
      }
      savedCaption := Some(caption);
      caption := SendingCaption;
      disabled := true;
    }

    /** submitComment settles: the comments are reloaded only for a
        created comment, and in every case the original caption comes back
        and the button is enabled again. */
    method Settle(reply: Option<Views.CommentReply>) returns (reload: bool)
      requires Valid() && disabled
      modifies this
      ensures Valid() && !disabled && savedCaption == None
      ensures caption == old(savedCaption.value)
      ensures reload <==> reply.Some? && reply.value.CommentCreated?
    {
      reload := reply.Some? && reply.value.CommentCreated?;
      caption := savedCaption.value;
      savedCaption := None;
      disabled := false;
    }
  }

  /** A whole submission: whether the form blocks it or sends it, and
      whatever the view answers, the button ends with its original caption
      and enabled, and the comments are reloaded only after a comment was
      both sent and created. */
  method SubmitComment(button: SubmitButton, author: string, body: string, email: string,
                       reply: Option<Views.CommentReply>)
      returns (outcome: ClientCheck, reload: bool)
    requires button.Valid() && !button.disabled
    modifies button
    ensures button.Valid() && !button.disabled
    ensures button.caption == old(button.caption)
    ensures outcome == CheckCommentForm(author, body, email)
    ensures reload <==> outcome.Send? && reply.Some? && reply.value.CommentCreated?
  {
    outcome := button.Submit(author, body, email);
    reload := false;
    if outcome.Send? {
      reload := button.Settle(reply);
    }
  }

  // ---------------------------------------------------------------- character counter

  /** The counter's colour for a body of `length` characters: red above
      900, amber above 750, green otherwise. */
  function CharCountColour(length: nat): (colour: string)
    ensures colour == Admin.Red <==> length > 900
    ensures colour == Admin.Amber <==> 750 < length <= 900
    ensures colour == Admin.Green <==> length <= 750
  {
    if length > 900 then Admin.Red else if length > 750 then Admin.Amber else Admin.Green
  }

  function Severity(colour: string): nat {
    if colour == Admin.Red then 2 else if colour == Admin.Amber then 1 else 0
  }

  /** Typing more never makes the counter's warning milder. */
  lemma CharCountMonotone(m: nat, n: nat)
    requires m <= n
    ensures Severity(CharCountColour(m)) <= Severity(CharCountColour(n))
  {
  }
}
