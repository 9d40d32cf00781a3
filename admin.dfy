/**
 * The admin site's bulk actions and list-display helpers (blog/admin.py).
 * A queryset selection is the set of rows the admin ticked.
 */
module Admin {
  import opened Text
  import opened Models

  // ---------------------------------------------------------------- PostAdmin actions

  /** The PostLike table without the reactions of the selected posts. */
  function DropReactions(m: ReactionTable, selection: set<PostId>): (m': ReactionTable)
    ensures forall k :: k in m' <==> k in m && k.post !in selection
    ensures forall k | k in m' :: m'[k] == m[k]
  {
    map k | k in m && k.post !in selection :: m[k]
  }

  /** Dropping the selected posts' reactions empties their tallies and
      leaves every other post's tally as it was. */
  lemma {:induction false} DropReactionsTally(m: ReactionTable, selection: set<PostId>, p: PostId)
    ensures p in selection ==> Tally(DropReactions(m, selection), p) == Counts(0, 0)
    ensures p !in selection ==> Tally(DropReactions(m, selection), p) == Tally(m, p)
  {
    var m' := DropReactions(m, selection);
    if p in selection {
      assert LikeKeys(m', p) == {};
      assert DislikeKeys(m', p) == {};
    } else {
      assert LikeKeys(m', p) == LikeKeys(m, p);
      assert DislikeKeys(m', p) == DislikeKeys(m, p);
    }
  }

  /** The first half of a turn of reset_engagement's loop: the post's
      counters become zero and it is saved. */
  method ClearCounters(post: Post)
    modifies post`likes, post`dislikes, post`views
    ensures post.likes == 0 && post.dislikes == 0 && post.views == 0
  {
    post.likes, post.dislikes, post.views := 0, 0, 0;
  }

  /** The second half: `PostLike.objects.filter(post=post).delete()`. */
  method DeleteReactions(db: Database, id: PostId)
    requires db.Valid()
    modifies db`reactions
    ensures db.Valid()
    ensures db.reactions == DropReactions(old(db.reactions), {id})
  {
    db.reactions := map k | k in db.reactions && k.post != id :: db.reactions[k];
  }

  /** The primary keys of a set of rows. */
  function Ids(rows: set<Post>): (ids: set<PostId>)
    ensures forall p | p in rows :: p.id in ids
  {
    set p | p in rows :: p.id
  }

  lemma IdsAddOne(rows: set<Post>, post: Post)
    ensures Ids(rows + {post}) == Ids(rows) + {post.id}
  {
  }

  /** In a valid database a post's key is among the keys of some of its
      rows exactly when the post is among those rows. */
  lemma IdsOfRows(db: Database, rows: set<Post>, id: PostId)
    requires db.Valid() && rows <= db.PostRows() && id in db.posts
    ensures id in Ids(rows) <==> db.posts[id] in rows
  {
    if id in Ids(rows) {
      var p :| p in rows && p.id == id;
      assert p in db.PostRows();
    }
  }

  /** After a reset, counters that followed the original reactions `m`
      follow the remaining ones: a reset post has zero of each and no
      reaction left, any other post kept the counters recorded in
      `before`. */
  lemma ResetKeepsTallied(db: Database, before: map<PostId, Counts>, m: ReactionTable, ids: set<PostId>)
    requires before.Keys == db.posts.Keys
    requires forall id | id in before :: before[id] == Tally(m, id)
    requires forall id | id in db.posts && id in ids :: db.posts[id].likes == 0 && db.posts[id].dislikes == 0
    requires forall id | id in db.posts && id !in ids ::
               Counts(db.posts[id].likes, db.posts[id].dislikes) == before[id]
    requires db.reactions == DropReactions(m, ids)
    ensures db.AllTallied()
  {
    forall id | id in db.posts ensures db.Tallied(id) {
      DropReactionsTally(m, ids, id);
    }
  }

  /** reset_engagement: every selected post gets zero likes, dislikes and
      views and loses all its PostLike rows, one post at a time; other
      posts and their reactions are untouched, so counters that followed
      the stored reactions still do. */
  method ResetEngagement(db: Database, selection: set<Post>)
    requires db.Valid() && selection <= db.PostRows()
    modifies db`reactions, selection`likes, selection`dislikes, selection`views
    ensures db.Valid()
    ensures forall p | p in selection :: p.likes == 0 && p.dislikes == 0 && p.views == 0
    ensures db.reactions == DropReactions(old(db.reactions), Ids(selection))
    ensures old(db.AllTallied()) ==> db.AllTallied()
  {
    var todo := selection;
    while todo != {}
      invariant todo <= selection
      invariant db.Valid()
      invariant forall p | p in selection && p !in todo :: p.likes == 0 && p.dislikes == 0 && p.views == 0
      invariant db.reactions == DropReactions(old(db.reactions), Ids(selection - todo))
      decreases todo
    {
      HasMember(todo);
      var post :| post in todo;
      ClearCounters(post);
      DeleteReactions(db, post.id);
      RemoveOne(selection, todo, post);
      IdsAddOne(selection - todo, post);
      DropReactionsTwice(old(db.reactions), Ids(selection - todo), post.id);
      todo := todo - {post};
    }
    assert selection - todo == selection;
    forall id | id in db.posts ensures id in Ids(selection) <==> db.posts[id] in selection {
      IdsOfRows(db, selection, id);
    }
    if old(db.AllTallied()) {
      ghost var before := map id | id in db.posts :: Counts(old(db.posts[id].likes), old(db.posts[id].dislikes));
      ResetKeepsTallied(db, before, old(db.reactions), Ids(selection));
    }
  }

  /** Dropping one more post's reactions is dropping the larger selection. */
  lemma DropReactionsTwice(m: ReactionTable, done: set<PostId>, id: PostId)
    ensures DropReactions(DropReactions(m, done), {id}) == DropReactions(m, done + {id})
  {
  }

  lemma RemoveOne<T>(selection: set<T>, todo: set<T>, x: T)
    requires x in todo && todo <= selection
    ensures (selection - todo) + {x} == selection - (todo - {x})
  {
  }

  lemma HasMember<T>(s: set<T>)
    ensures s == {} || exists x :: x in s
  {
    if !exists x :: x in s {
      assert s == {};
    }
  }

  /** mark_as_featured / unmark_as_featured of PostAdmin:
      `queryset.update(featured=flag)`; no other field of any row changes. */
  method UpdatePostsFeatured(selection: set<Post>, flag: bool)
    modifies selection`featured
    ensures forall p | p in selection :: p.featured == flag
  {
    forall p | p in selection {
      p.featured := flag;
    }
  }

  // ---------------------------------------------------------------- CommentAdmin actions

  /** mark_as_featured / unmark_as_featured of CommentAdmin:
      `queryset.update(is_featured=flag)`; no other field of any row changes. */
  method UpdateCommentsFeatured(selection: set<Comment>, flag: bool)
    modifies selection`isFeatured
    ensures forall c | c in selection :: c.isFeatured == flag
  {
    forall c | c in selection {
      c.isFeatured := flag;
    }
  }

  // ---------------------------------------------------------------- list-display helpers

  const Green := "#28a745"
  const Amber := "#ffc107"
  const Red := "#dc3545"

  /** The colour engagement_display gives a ratio (here in tenths of a
      percent): green from 70%, amber from 40%, red below. */
  function EngagementColour(tenths: nat): (colour: string)
    ensures colour == Green <==> tenths >= 700
    ensures colour == Amber <==> 400 <= tenths < 700
    ensures colour == Red <==> tenths < 400
  {
    if tenths >= 700 then Green else if tenths >= 400 then Amber else Red
  }

  /** A post liked by someone and disliked by nobody shows green; a post
      nobody liked shows red. */
  lemma ColourOfExtremes(p: Post)
    ensures p.dislikes == 0 < p.likes ==> EngagementColour(p.EngagementRatio()) == Green
    ensures p.likes == 0 ==> EngagementColour(p.EngagementRatio()) == Red
  {
  }

  /** has_email: an envelope for a comment with an email, a cross otherwise. */
  function HasEmail(email: string): (mark: string)
    ensures mark == "\U{2709}\U{FE0F}" <==> email != []
    ensures mark == "\U{274C}" <==> email == []
  {
    if email != [] then "\U{2709}\U{FE0F}" else "\U{274C}"
  }

  /** reaction: the label of a PostLike row. */
  function ReactionLabel(isLike: bool): (caption: string)
    ensures caption == "\U{1F44D} Like" <==> isLike
    ensures caption == "\U{1F44E} Dislike" <==> !isLike
  {
    if isLike then "\U{1F44D} Like" else "\U{1F44E} Dislike"
  }

  /** category_list: the post's category names joined with ", ". */
  function CategoryList(names: seq<string>): (r: string)
    ensures names == [] ==> r == []
    ensures |names| >= 1 ==> names[0] <= r && |r| == TotalLength(names) + 2 * (|names| - 1)
  {
    Join(names, ", ")
  }
}
