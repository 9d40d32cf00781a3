/**
 * The request handlers of blog/views.py that hold rules: the client
 * address, the AJAX comment validator and insert, the like/dislike toggle
 * over the PostLike table, the live-search reply, the post-data reply and
 * the index ordering whitelist. A request's parsed JSON fields arrive as
 * parameters; the database is a `Models.Database`.
 */
module Views {
  import opened Wrappers
  import opened Text
  import opened Models

  /** Django's message for get_object_or_404 on a missing post. The views
      call it inside their `try`, so `except Exception` turns it into a 500 reply. */
  const NotFound := "No Post matches the given query."

  // ---------------------------------------------------------------- get_client_ip

  /** get_client_ip: the text before the first comma of X-Forwarded-For,
      not stripped, when that header is non-empty; REMOTE_ADDR otherwise. */
  function ClientIp(forwardedFor: Option<string>, remoteAddr: Option<string>): (ip: Option<string>)
    ensures forwardedFor.Some? && forwardedFor.value != [] ==>
              && ip.Some?
              && ip.value <= forwardedFor.value
              && ',' !in ip.value
              && (',' in forwardedFor.value ==> forwardedFor.value[|ip.value|] == ',')
              && (',' !in forwardedFor.value ==> ip.value == forwardedFor.value)
    ensures forwardedFor.None? || forwardedFor.value == [] ==> ip == remoteAddr
  {
    if forwardedFor.Some? && forwardedFor.value != [] then
      var header := forwardedFor.value;
      var parts := Split(header, ',');
      assert |parts| > 1 ==> header == parts[0] + [','] + Join(parts[1..], [',']);
      Some(parts[0])
    else remoteAddr
  }

  // ---------------------------------------------------------------- add_comment_ajax

  /** `re.match(r'^[^@]+@[^@]+\.[^@]+$', s)` on a stripped string: one `@`
      that is not the first character, and after it a `.` that is neither
      the first nor the last character of the rest. */
  predicate EmailShape(s: string) {
    '@' in s &&
    var at := IndexOf(s, '@');
    var rest := s[at + 1..];
    at > 0 && '@' !in rest && exists j | 0 < j < |rest| - 1 :: rest[j] == '.'
  }

  /** The pattern read as a grammar: non-empty runs without `@` around one
      `@` and one `.`. */
  ghost predicate EmailParts(s: string) {
    exists a: string, b: string, c: string :: SplitsAsEmail(s, a, b, c)
  }

  ghost predicate SplitsAsEmail(s: string, a: string, b: string, c: string) {
    s == a + "@" + b + "." + c && a != [] && b != [] && c != [] &&
    '@' !in a && '@' !in b && '@' !in c
  }

  lemma EmailShapeIffParts(s: string)
    ensures EmailShape(s) <==> EmailParts(s)
  {
    if EmailShape(s) {
      EmailShapeGivesParts(s);
    }
    if EmailParts(s) {
      var a: string, b: string, c: string :| SplitsAsEmail(s, a, b, c);
      PartsGiveEmailShape(s, a, b, c);
    }
  }

  lemma EmailShapeGivesParts(s: string)
    requires EmailShape(s)
    ensures EmailParts(s)
  {
    var at := IndexOf(s, '@');
    var rest := s[at + 1..];
    var j :| 0 < j < |rest| - 1 && rest[j] == '.';
    SplitAtTwo(s, at, j);
    WithoutInPieces(rest, j, '@');
    assert SplitsAsEmail(s, s[..at], rest[..j], rest[j + 1..]);
  }

  /** A text cut around its characters at `at` and at `at + 1 + j`. */
  lemma SplitAtTwo(s: string, at: nat, j: nat)
    requires at + 1 + j < |s|
    ensures s == s[..at] + [s[at]] + s[at + 1..][..j] + [s[at + 1 + j]] + s[at + 1..][j + 1..]
  {
    var rest := s[at + 1..];
    assert rest == rest[..j] + [rest[j]] + rest[j + 1..];
    assert s == s[..at] + [s[at]] + rest;
  }

  /** A character missing from a text is missing from both sides of a cut. */
  lemma WithoutInPieces(t: string, j: nat, c: char)
    requires j < |t| && c !in t
    ensures c !in t[..j] && c !in t[j + 1..]
  {
    assert forall i | 0 <= i < j :: t[..j][i] == t[i];
    assert forall i | j + 1 <= i < |t| :: t[j + 1..][i - (j + 1)] == t[i];
  }

  lemma PartsGiveEmailShape(s: string, a: string, b: string, c: string)
    requires s == a + "@" + b + "." + c && a != [] && b != [] && c != []
    requires '@' !in a && '@' !in b && '@' !in c
    ensures EmailShape(s)
  {
    assert s[..|a|] == a;
    assert s[|a|] == '@';
    IndexOfUnique(s, '@', |a|);
    var rest := s[|a| + 1..];
    assert rest == b + "." + c;
    assert rest[|b|] == '.';
    assert '@' !in rest;
  }

  datatype CommentProblem = MissingFields | BodyTooLong | AuthorTooLong | InvalidEmail {
    function Message(): string {
      match this
      case MissingFields => "Nombre y comentario son obligatorios"
      case BodyTooLong => "El comentario no puede exceder 1000 caracteres"
      case AuthorTooLong => "El nombre no puede exceder 60 caracteres"
      case InvalidEmail => "Email inválido"
    }
  }

  /** `all([post_id, author, body])` for an integer id: each is truthy. */
  predicate AllGiven(postId: Option<int>, author: string, body: string) {
    postId.Some? && postId.value != 0 && author != [] && body != []
  }

  /** The checks of add_comment_ajax on the stripped fields, in the order
      the view makes them; the first one that fails decides the reply. */
  function CheckComment(postId: Option<int>, author: string, body: string, email: string): (r: Option<CommentProblem>)
    ensures r == None <==>
              AllGiven(postId, author, body) && |body| <= BodyMaxLength && |author| <= AuthorMaxLength &&
              (email == [] || EmailShape(email))
    ensures r == Some(MissingFields) <==> !AllGiven(postId, author, body)
    ensures r == Some(BodyTooLong) <==> AllGiven(postId, author, body) && |body| > BodyMaxLength
    ensures r == Some(AuthorTooLong) <==>
              AllGiven(postId, author, body) && |body| <= BodyMaxLength && |author| > AuthorMaxLength
    ensures r == Some(InvalidEmail) <==>
              AllGiven(postId, author, body) && |body| <= BodyMaxLength && |author| <= AuthorMaxLength &&
              email != [] && !EmailShape(email)
  {
    if !AllGiven(postId, author, body) then Some(MissingFields)
    else if |body| > BodyMaxLength then Some(BodyTooLong)
    else if |author| > AuthorMaxLength then Some(AuthorTooLong)
    else if email != [] && !EmailShape(email) then Some(InvalidEmail)
    else None
  }

  datatype CommentReply =
    | CommentCreated(id: CommentId, author: string, body: string, email: string, isFeatured: bool)
    | CommentFailed(status: nat, error: string)

  /** `Comment.objects.create(...)`: one new row under the next free key;
      the posts, the reactions and the other comments stay as they were. */
  method CreateComment(db: Database, post: PostId, author: string, body: string, email: string, ip: Option<Ip>)
    returns (c: Comment)
    requires db.Valid() && post in db.posts
    modifies db
    ensures db.Valid() && fresh(c)
    ensures c.id == old(db.nextCommentId) && c.id !in old(db.comments)
    ensures db.comments == old(db.comments)[c.id := c]
    ensures c.post == post && c.author == author && c.body == body && c.email == email && c.ip == ip
    ensures !c.isFeatured
    ensures db.posts == old(db.posts) && db.reactions == old(db.reactions)
  {
    var id := db.nextCommentId;
    c := new Comment(id, post, author, body, email, ip);
    db.comments := db.comments[id := c];
    db.nextCommentId := id + 1;
  }

  /** add_comment_ajax: strips the three text fields, validates them, and
      on success stores one comment holding the stripped values; every
      failure leaves the database as it was. */
  method AddCommentAjax(db: Database, postId: Option<int>, author: string, body: string, email: string, ip: Option<Ip>)
    returns (reply: CommentReply)
    requires db.Valid()
    modifies db
    ensures db.Valid()
    ensures reply.CommentFailed? ==> unchanged(db)
    ensures var problem := CheckComment(postId, Trim(author), Trim(body), Trim(email));
            && (problem.Some? ==> reply == CommentFailed(400, problem.value.Message()))
            && (problem.None? && postId.value !in old(db.posts) ==>
                  reply == CommentFailed(500, "Error del servidor: " + NotFound))
            && (problem.None? && postId.value in old(db.posts) ==>
                  reply == CommentCreated(old(db.nextCommentId), Trim(author), Trim(body), Trim(email), false))
    ensures reply.CommentCreated? ==>
              && reply.id !in old(db.comments) && reply.id in db.comments
              && db.comments == old(db.comments)[reply.id := db.comments[reply.id]]
              && fresh(db.comments[reply.id])
              && db.comments[reply.id].post == postId.value
              && db.comments[reply.id].author == reply.author && db.comments[reply.id].body == reply.body
              && db.comments[reply.id].email == reply.email && db.comments[reply.id].ip == ip
              && !db.comments[reply.id].isFeatured
              && db.posts == old(db.posts) && db.reactions == old(db.reactions)
  {
    var a, b, e := Trim(author), Trim(body), Trim(email);
    var problem := CheckComment(postId, a, b, e);
    if problem.Some? {
      return CommentFailed(400, problem.value.Message());
    }
    if postId.value !in db.posts {
      return CommentFailed(500, "Error del servidor: " + NotFound);
    }
    var c := CreateComment(db, postId.value, a, b, e, ip);
    reply := CommentCreated(c.id, a, b, e, false);
  }

  // ---------------------------------------------------------------- like_post_ajax

  datatype LikeAction = Added | Removed | Changed {
    /** The `action` member of the JSON reply. */
    function Name(): (name: string)
      ensures name == "added" <==> this == Added
      ensures name == "removed" <==> this == Removed
      ensures name == "changed" <==> this == Changed
    {
      match this
      case Added => "added"
      case Removed => "removed"
      case Changed => "changed"
    }
  }

  /** What one reaction request does to a post: the reaction stored for
      the address afterwards, the new counters and the action reported. */
  datatype Reacted = Reacted(stored: Option<bool>, counts: Counts, action: LikeAction)

  /** `max(0, n - 1)`. */
  function Decrement(n: nat): (r: nat)
    ensures n > 0 ==> r + 1 == n
    ensures n == 0 ==> r == 0
  {
    if n == 0 then 0 else n - 1
  }

  /** The three branches of like_post_ajax: no stored reaction adds one;
      the same reaction again removes it; the opposite one flips it. */
  function React(existing: Option<bool>, isLike: bool, c: Counts): (o: Reacted)
    ensures o.action == Added <==> existing.None?
    ensures o.action == Removed <==> existing == Some(isLike)
    ensures o.action == Changed <==> existing == Some(!isLike)
    ensures o.stored == if o.action == Removed then None else Some(isLike)
    ensures o.action == Added ==> o.counts == if isLike then c.(likes := c.likes + 1) else c.(dislikes := c.dislikes + 1)
    ensures o.action == Removed && isLike ==> o.counts.dislikes == c.dislikes && o.counts.likes <= c.likes
    ensures o.action == Removed && !isLike ==> o.counts.likes == c.likes && o.counts.dislikes <= c.dislikes
    ensures o.action == Changed && isLike ==> o.counts.likes == c.likes + 1 && o.counts.dislikes <= c.dislikes
    ensures o.action == Changed && !isLike ==> o.counts.dislikes == c.dislikes + 1 && o.counts.likes <= c.likes
  {
    match existing
    case None =>
      Reacted(Some(isLike), if isLike then c.(likes := c.likes + 1) else c.(dislikes := c.dislikes + 1), Added)
    case Some(was) =>
      if was == isLike then
        Reacted(None, if isLike then c.(likes := Decrement(c.likes)) else c.(dislikes := Decrement(c.dislikes)), Removed)
      else
        Reacted(Some(isLike),
                if isLike then Counts(c.likes + 1, Decrement(c.dislikes)) else Counts(Decrement(c.likes), c.dislikes + 1),
                Changed)
  }

  /** `PostLike.objects.filter(post=post, ip_address=ip).first()`. */
  function Lookup(m: ReactionTable, k: ReactionKey): (r: Option<bool>)
    ensures r.Some? <==> k in m
    ensures r.Some? ==> r.value == m[k]
  {
    if k in m then Some(m[k]) else None
  }

  /** The table after the reaction for `k` is set (create or flip) or deleted. */
  function Store(m: ReactionTable, k: ReactionKey, v: Option<bool>): (m': ReactionTable)
    ensures Lookup(m', k) == v
    ensures forall k' | k' != k :: Lookup(m', k') == Lookup(m, k')
  {
    if v.Some? then m[k := v.value] else m - {k}
  }

  /** How one store changes the sets of like and dislike keys of a post. */
  lemma StoreKeys(m: ReactionTable, k: ReactionKey, v: Option<bool>, p: PostId)
    ensures LikeKeys(Store(m, k, v), p) == (LikeKeys(m, p) - {k}) + (if k.post == p && v == Some(true) then {k} else {})
    ensures DislikeKeys(Store(m, k, v), p) == (DislikeKeys(m, p) - {k}) + (if k.post == p && v == Some(false) then {k} else {})
  {
    var m' := Store(m, k, v);
    forall k' ensures k' in LikeKeys(m', p) <==> k' in (LikeKeys(m, p) - {k}) + (if k.post == p && v == Some(true) then {k} else {}) {
      assert Lookup(m', k') == if k' == k then v else Lookup(m, k');
    }
    forall k' ensures k' in DislikeKeys(m', p) <==> k' in (DislikeKeys(m, p) - {k}) + (if k.post == p && v == Some(false) then {k} else {}) {
      assert Lookup(m', k') == if k' == k then v else Lookup(m, k');
    }
  }

  lemma CardRemoveAdd(s: set<ReactionKey>, k: ReactionKey, add: bool)
    ensures |(s - {k}) + (if add then {k} else {})| == |s| - (if k in s then 1 else 0) + (if add then 1 else 0)
  {
    if k in s {
      assert s == (s - {k}) + {k};
    }
  }

  /** The counters follow the stored reactions: if they equalled the tally
      before a reaction request, they equal the tally after it. In
      particular the `max(0, ...)` floor never applies to a tallied post. */
  lemma {:induction false} ReactKeepsTally(m: ReactionTable, k: ReactionKey, isLike: bool)
    ensures var o := React(Lookup(m, k), isLike, Tally(m, k.post));
            o.counts == Tally(Store(m, k, o.stored), k.post)
  {
    var p := k.post;
    var o := React(Lookup(m, k), isLike, Tally(m, p));
    StoreKeys(m, k, o.stored, p);
    CardRemoveAdd(LikeKeys(m, p), k, o.stored == Some(true));
    CardRemoveAdd(DislikeKeys(m, p), k, o.stored == Some(false));
    assert k in LikeKeys(m, p) <==> Lookup(m, k) == Some(true);
    assert k in DislikeKeys(m, p) <==> Lookup(m, k) == Some(false);
  }

  /** A reaction to one post leaves every other post's tally alone. */
  lemma StoreKeepsOtherTallies(m: ReactionTable, k: ReactionKey, v: Option<bool>, p: PostId)
    requires p != k.post
    ensures Tally(Store(m, k, v), p) == Tally(m, p)
  {
    StoreKeys(m, k, v, p);
    assert k !in LikeKeys(m, p) && k !in DislikeKeys(m, p);
    assert LikeKeys(m, p) - {k} == LikeKeys(m, p);
    assert DislikeKeys(m, p) - {k} == DislikeKeys(m, p);
  }

  /** A first reaction followed by the same reaction again is undone
      completely: the table and the counters are back where they were. */
  lemma AddThenSameRestores(m: ReactionTable, k: ReactionKey, isLike: bool, c: Counts)
    requires k !in m
    ensures var o1 := React(Lookup(m, k), isLike, c);
            var o2 := React(o1.stored, isLike, o1.counts);
            && o1.action == Added && o2.action == Removed
            && o2.counts == c && o2.stored == None
            && Store(Store(m, k, o1.stored), k, o2.stored) == m
  {
    var o1 := React(Lookup(m, k), isLike, c);
    assert Store(Store(m, k, o1.stored), k, None) == m[k := isLike] - {k};
    assert m[k := isLike] - {k} == m;
  }

  /** Repeating a stored reaction removes it, and sending it once more
      stores it again: the actions alternate between removed and added. */
  lemma RemoveThenSameReadds(existing: bool, c: Counts)
    requires (existing && c.likes > 0) || (!existing && c.dislikes > 0)
    ensures var o1 := React(Some(existing), existing, c);
            var o2 := React(o1.stored, existing, o1.counts);
            o1.action == Removed && o2.action == Added && o2.stored == Some(existing) && o2.counts == c
  {
  }

  /** The `user_reaction` field: "like", "dislike" or None. */
  function ReactionName(stored: Option<bool>): (r: Option<string>)
    ensures r == None <==> stored == None
    ensures r == Some("like") <==> stored == Some(true)
    ensures r == Some("dislike") <==> stored == Some(false)
  {
    match stored
    case None => None
    case Some(like) => Some(if like then "like" else "dislike")
  }

  datatype LikeReply =
    | LikeDone(action: LikeAction, likes: nat, dislikes: nat, userReaction: Option<string>)
    | LikeFailed(status: nat, error: string)

  /** The database's message when a PostLike row is created without an
      address: `ip_address` is a required column (SQLite's wording). */
  const NullAddress := "NOT NULL constraint failed: blog_postlike.ip_address"

  /** The post a reaction request names, when it exists: the only row
      whose counters like_post_ajax may change. */
  function ReactedPost(db: Database, postId: Option<int>): (rows: set<Post>)
    reads db
    ensures |rows| <= 1
    ensures rows != {} <==> postId.Some? && postId.value in db.posts
    ensures postId.Some? && postId.value in db.posts ==> rows == {db.posts[postId.value]}
  {
    if postId.Some? && postId.value in db.posts then {db.posts[postId.value]} else {}
  }

  /** like_post_ajax: with both fields present and the post found, applies
      React to the post's counters and the PostLike row for (post, ip), and
      keeps the counters in step with the stored reactions. */
  method LikePostAjax(db: Database, postId: Option<int>, isLike: Option<bool>, ip: Option<Ip>) returns (reply: LikeReply)
    requires db.Valid()
    modifies db`reactions, ReactedPost(db, postId)`likes, ReactedPost(db, postId)`dislikes
    ensures db.Valid()
    ensures postId.None? || isLike.None? ==>
              reply == LikeFailed(400, "Datos incompletos") && unchanged(db) && unchanged(ReactedPost(db, postId))
    ensures postId.Some? && isLike.Some? && postId.value !in old(db.posts) ==>
              reply == LikeFailed(500, "Error: " + NotFound) && unchanged(db)
    ensures postId.Some? && isLike.Some? && postId.value in old(db.posts) && ip.None? ==>
              reply == LikeFailed(500, "Error: " + NullAddress) && unchanged(db) && unchanged(ReactedPost(db, postId))
    ensures postId.Some? && isLike.Some? && postId.value in old(db.posts) && ip.Some? ==>
              var post := old(db.posts)[postId.value];
              var key := ReactionKey(postId.value, ip.value);
              var o := React(Lookup(old(db.reactions), key), isLike.value, Counts(old(post.likes), old(post.dislikes)));
              && db.posts == old(db.posts) && db.comments == old(db.comments)
              && db.nextCommentId == old(db.nextCommentId)
              && post.views == old(post.views) && post.title == old(post.title) && post.body == old(post.body)
              && post.categories == old(post.categories) && post.featured == old(post.featured)
              && db.reactions == Store(old(db.reactions), key, o.stored)
              && post.likes == o.counts.likes && post.dislikes == o.counts.dislikes
              && reply == LikeDone(o.action, post.likes, post.dislikes, ReactionName(o.stored))
    ensures old(db.AllTallied()) ==> db.AllTallied()
  {
    if postId.None? || isLike.None? {
      return LikeFailed(400, "Datos incompletos");
    }
    var id := postId.value;
    if id !in db.posts {
      return LikeFailed(500, "Error: " + NotFound);
    }
    if ip.None? {
      return LikeFailed(500, "Error: " + NullAddress);
    }
    var post := db.posts[id];
    var key := ReactionKey(id, ip.value);
    var like := isLike.value;
    ghost var before := db.reactions;
    ghost var talliedBefore := db.AllTallied();
    var o := React(Lookup(db.reactions, key), like, Counts(post.likes, post.dislikes));
    db.reactions := Store(db.reactions, key, o.stored);
    post.likes, post.dislikes := o.counts.likes, o.counts.dislikes;
    reply := LikeDone(o.action, post.likes, post.dislikes, ReactionName(o.stored));
    if talliedBefore {
      ReactKeepsTally(before, key, like);
      forall p | p in db.posts ensures db.Tallied(p) {
        if p != id {
          StoreKeepsOtherTallies(before, key, o.stored, p);
        }
      }
    }
  }

  // ---------------------------------------------------------------- search_posts_ajax

  const MinQueryLength: nat := 2
  const MaxSearchResults: nat := 10

  datatype SearchResult = SearchResult(id: PostId, title: string, excerpt: string, categories: seq<string>,
                                       views: nat, likes: nat)

  function ToResults(posts: seq<Post>): (rs: seq<SearchResult>)
    reads posts
    ensures |rs| == |posts|
    ensures forall i | 0 <= i < |rs| ::
              rs[i] == SearchResult(posts[i].id, posts[i].title, Excerpt(posts[i].body), posts[i].categories,
                                    posts[i].views, posts[i].likes)
  {
    if posts == [] then []
    else
      var p := posts[0];
      [SearchResult(p.id, p.title, Excerpt(p.body), p.categories, p.views, p.likes)] + ToResults(posts[1..])
  }

  /** search_posts_ajax: a stripped query shorter than two characters gets
      no results; otherwise the first ten matching posts, in the order the
      database returned them, each with its excerpt. `matching` is what the
      case-insensitive title/body/category filter returned. */
  function SearchPostsAjax(q: string, matching: seq<Post>): (rs: seq<SearchResult>)
    reads matching
    ensures |Trim(q)| < MinQueryLength ==> rs == []
    ensures |rs| <= MaxSearchResults
    ensures |Trim(q)| >= MinQueryLength ==> |rs| == if |matching| < MaxSearchResults then |matching| else MaxSearchResults
    ensures forall i | 0 <= i < |rs| ::
              rs[i].id == matching[i].id && rs[i].excerpt == Excerpt(matching[i].body) &&
              |rs[i].excerpt| <= ExcerptLength + 3
  {
    if |Trim(q)| < MinQueryLength then []
    else
      var n := if |matching| < MaxSearchResults then |matching| else MaxSearchResults;
      var rs := ToResults(matching[..n]);
      forall i | 0 <= i < n ensures |rs[i].excerpt| <= ExcerptLength + 3 {
        ExcerptIdempotent(matching[i].body);
      }
      rs
  }

  // ---------------------------------------------------------------- get_post_data_ajax

  datatype PostDataReply =
    | PostData(id: PostId, title: string, body: string, categories: seq<string>, likes: nat, dislikes: nat,
               views: nat, readingTime: nat, engagementTenths: nat, userReaction: Option<string>, featured: bool)
    | PostDataFailed(status: nat, error: string)

  /** get_post_data_ajax: counts one more view of the post, then replies
      with its fields and the reaction stored for the caller's address. */
  method GetPostDataAjax(db: Database, pk: PostId, ip: Option<Ip>) returns (reply: PostDataReply)
    requires db.Valid()
    modifies (if pk in db.posts then {db.posts[pk]} else {})`views
    ensures pk !in db.posts ==> reply == PostDataFailed(500, "Error: " + NotFound)
    ensures pk in db.posts ==>
              var p := db.posts[pk];
              && p.views == old(p.views) + 1
              && reply.PostData? && reply.id == pk && reply.views == p.views
              && reply.title == p.title && reply.body == p.body
              && reply.categories == p.categories && reply.featured == p.featured
              && reply.likes == p.likes && reply.dislikes == p.dislikes
              && reply.readingTime == p.ReadingTime() && reply.readingTime >= 1
              && reply.engagementTenths == p.EngagementRatio() && reply.engagementTenths <= 1000
              && (ip.None? ==> reply.userReaction == None)
              && (ip.Some? ==> reply.userReaction == ReactionName(Lookup(db.reactions, ReactionKey(pk, ip.value))))
  {
    if pk !in db.posts {
      return PostDataFailed(500, "Error: " + NotFound);
    }
    var p := db.posts[pk];
    p.IncrementViews();
    // Without an address the filter on the required ip_address column finds no row.
    var stored := if ip.Some? then Lookup(db.reactions, ReactionKey(pk, ip.value)) else None;
    reply := PostData(p.id, p.title, p.body, p.categories, p.likes, p.dislikes, p.views,
                      p.ReadingTime(), p.EngagementRatio(), ReactionName(stored), p.featured);
  }

  // ---------------------------------------------------------------- blog_index

  const OrderChoices: seq<string> := ["-created_on", "-views", "-likes", "title"]
  const DefaultOrder: string := "-created_on"

  /** The ordering blog_index applies: the `order` parameter when it is on
      the whitelist, else the default newest-first order (the parameter's
      default, and also the model's Meta ordering when none is applied). */
  function IndexOrder(order: Option<string>): (r: string)
    ensures r in OrderChoices
    ensures order.Some? && order.value in OrderChoices ==> r == order.value
    ensures order.None? || order.value !in OrderChoices ==> r == DefaultOrder
  {
    if order.Some? && order.value in OrderChoices then order.value else DefaultOrder
  }
}
