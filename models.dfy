/**
 * The blog's database tables (blog/models.py): posts, comments and the
 * PostLike table of per-address reactions, with the helpers defined on
 * the model classes. Rows whose fields the code updates in place are
 * objects; the tables are maps from primary key to row.
 */
module Models {
  import opened Wrappers
  import opened Text

  type PostId = int
  type CommentId = int
  type Ip = string

  /** Declared field bounds: Comment.author is a CharField of at most 60
      characters, Comment.body a TextField of at most 1000. */
  const AuthorMaxLength: nat := 60
  const BodyMaxLength: nat := 1000

  /** Reading speed assumed by get_reading_time. */
  const WordsPerMinute: nat := 200

  /** Preview length of get_short_body and of the search excerpt. */
  const ExcerptLength: nat := 100

  /** The regular-expression class `\w`; the model keeps its ASCII members. */
  predicate IsWordChar(c: char) {
    ('a' <= c <= 'z') || ('A' <= c <= 'Z') || ('0' <= c <= '9') || c == '_'
  }

  /** Position `i` begins a maximal run of word characters. */
  predicate StartsWord(s: string, i: nat)
    requires i < |s|
  {
    IsWordChar(s[i]) && (i == 0 || !IsWordChar(s[i - 1]))
  }

  /** `len(re.findall(r'\w+', s))`: the number of maximal runs of word
      characters. It is zero exactly when `s` has no word character, and a
      run needs at least one character plus a separator before the next. */
  function WordCount(s: string): (n: nat)
    ensures n == 0 <==> forall i :: 0 <= i < |s| ==> !IsWordChar(s[i])
    ensures 2 * n <= |s| + (if |s| > 0 && IsWordChar(s[|s| - 1]) then 1 else 0)
  {
    if |s| == 0 then 0
    else
      var init := s[..|s| - 1];
      var n0 := WordCount(init);
      assert forall i :: 0 <= i < |init| ==> init[i] == s[i];
      n0 + (if StartsWord(s, |s| - 1) then 1 else 0)
  }

  /** Python's `round(n / d)` for non-negative integers: the nearest
      integer, ties going to the even neighbour. */
  function RoundHalfEven(n: nat, d: nat): (r: nat)
    requires d > 0
    ensures 2 * n - d <= 2 * d * r <= 2 * n + d
    ensures 2 * d * r == 2 * n + d || 2 * d * r == 2 * n - d ==> r % 2 == 0
  {
    var q, rem := n / d, n % d;
    DivMod(n, d);
    var r := if 2 * rem < d then q
             else if 2 * rem > d then q + 1
             else if q % 2 == 0 then q
             else q + 1;
    RoundingBounds(n, d, q, rem, r);
    r
  }

  lemma DivMod(n: nat, d: nat)
    requires d > 0
    ensures n == d * (n / d) + n % d && 0 <= n % d < d && n / d >= 0
  {
  }

  /** Rounding the quotient down or up, as the remainder says, keeps the
      result within half a unit, and only an exact tie is decided by parity. */
  lemma RoundingBounds(n: int, d: int, q: int, rem: int, r: int)
    requires d > 0 && n == d * q + rem && 0 <= rem < d
    requires r == q || r == q + 1
    requires r == q ==> 2 * rem <= d
    requires r == q + 1 ==> 2 * rem >= d
    requires 2 * rem == d ==> r % 2 == 0
    ensures 2 * n - d <= 2 * d * r <= 2 * n + d
    ensures 2 * d * r == 2 * n + d || 2 * d * r == 2 * n - d ==> r % 2 == 0
  {
    if r == q {
      assert 2 * d * r == 2 * (d * q);
    } else {
      assert 2 * d * r == 2 * (d * q) + 2 * d;
    }
  }

  /** get_short_body, and the excerpt of a search result: the text itself
      when it has at most 100 characters, otherwise its first 100
      characters followed by "...". */
  function Excerpt(s: string): (r: string)
    ensures |s| <= ExcerptLength ==> r == s
    ensures |s| > ExcerptLength ==> |r| == ExcerptLength + 3 && r[..ExcerptLength] == s[..ExcerptLength]
                                    && r[ExcerptLength..] == "..."
  {
    if |s| > ExcerptLength then s[..ExcerptLength] + "..." else s
  }

  /** Abbreviating an excerpt again changes nothing. */
  lemma ExcerptIdempotent(s: string)
    ensures Excerpt(Excerpt(s)) == Excerpt(s)
    ensures |Excerpt(s)| <= ExcerptLength + 3
  {
    if |s| > ExcerptLength {
      var r := Excerpt(s);
      assert r == r[..ExcerptLength] + r[ExcerptLength..];
    }
  }

  lemma MulMono(a: nat, b: nat, c: nat)
    requires b <= c
    ensures a * b <= a * c
  {
  }

  /** What the rounding contract gives for a share of likes among `total` reactions. */
  lemma RatioBounds(likes: nat, total: nat, r: nat)
    requires 0 < total && likes <= total
    requires 2 * 1000 * likes - total <= 2 * total * r <= 2 * 1000 * likes + total
    ensures r <= 1000
    ensures likes == 0 ==> r == 0
    ensures likes == total ==> r == 1000
  {
    if r >= 1001 {
      MulMono(total, 1001, r);
    }
    if likes == 0 && r >= 1 {
      MulMono(total, 1, r);
    }
    if likes == total && r <= 999 {
      MulMono(total, r, 999);
    }
  }

  class Post {
    const id: PostId
    var title: string
    var body: string
    var categories: seq<string>
    var likes: nat
    var dislikes: nat
    var views: nat
    var featured: bool

    /** A new row: the counters and the featured flag take their declared defaults. */
    constructor (id: PostId, title: string, body: string, categories: seq<string>)
      ensures this.id == id && this.title == title && this.body == body && this.categories == categories
      ensures likes == 0 && dislikes == 0 && views == 0 && !featured
    {
      this.id := id;
      this.title := title;
      this.body := body;
      this.categories := categories;
      likes, dislikes, views, featured := 0, 0, 0, false;
    }

    /** get_reading_time: minutes at 200 words per minute, rounded half to
        even and never below one. */
    function ReadingTime(): (minutes: nat)
      reads this
      ensures minutes >= 1
      ensures WordCount(body) <= WordsPerMinute / 2 ==> minutes == 1
      ensures WordCount(body) >= WordsPerMinute / 2 ==>
                2 * WordsPerMinute * minutes <= 2 * WordCount(body) + WordsPerMinute &&
                2 * WordCount(body) - WordsPerMinute <= 2 * WordsPerMinute * minutes
      ensures WordCount(body) > WordsPerMinute / 2 &&
              (2 * WordsPerMinute * minutes == 2 * WordCount(body) + WordsPerMinute ||
               2 * WordsPerMinute * minutes == 2 * WordCount(body) - WordsPerMinute) ==>
                minutes % 2 == 0
    {
      var words := WordCount(body);
      var rounded := RoundHalfEven(words, WordsPerMinute);
      if rounded < 1 then 1 else rounded
    }

    /** get_engagement_ratio, in tenths of a percent: the share of likes
        among all reactions, rounded to one decimal, and 0 for a post with
        no reaction. */
    function EngagementRatio(): (tenths: nat)
      reads this
      ensures tenths <= 1000
      ensures likes + dislikes == 0 ==> tenths == 0
      ensures likes == 0 ==> tenths == 0
      ensures dislikes == 0 < likes ==> tenths == 1000
      ensures likes + dislikes > 0 ==>
                2 * 1000 * likes - (likes + dislikes) <= 2 * (likes + dislikes) * tenths <=
                2 * 1000 * likes + (likes + dislikes)
    {
      var total := likes + dislikes;
      if total == 0 then 0
      else
        var r := RoundHalfEven(1000 * likes, total);
        RatioBounds(likes, total, r);
        r
    }

    /** increment_views: one more view, saved with update_fields=['views'],
        so no other field changes. */
    method IncrementViews()
      modifies this`views
      ensures views == old(views) + 1
    {
      views := views + 1;
    }
  }

  class Comment {
    const id: CommentId
    const post: PostId
    var author: string
    var body: string
    var email: string
    var isFeatured: bool
    var ip: Option<Ip>

    constructor (id: CommentId, post: PostId, author: string, body: string, email: string, ip: Option<Ip>)
      ensures this.id == id && this.post == post && this.author == author && this.body == body
      ensures this.email == email && this.ip == ip && !isFeatured
    {
      this.id, this.post := id, post;
      this.author, this.body, this.email := author, body, email;
      this.ip := ip;
      isFeatured := false;
    }
  }

  /** A PostLike row's key. `unique_together = ('post', 'ip_address')`
      makes the pair a key of the table, so the table is a map from the
      pair to `is_like`. */
  datatype ReactionKey = ReactionKey(post: PostId, ip: Ip)

  type ReactionTable = map<ReactionKey, bool>

  datatype Counts = Counts(likes: nat, dislikes: nat)

  function LikeKeys(m: ReactionTable, p: PostId): set<ReactionKey> {
    set k | k in m && k.post == p && m[k]
  }

  function DislikeKeys(m: ReactionTable, p: PostId): set<ReactionKey> {
    set k | k in m && k.post == p && !m[k]
  }

  /** The counters a post would have if they counted its stored reactions. */
  function Tally(m: ReactionTable, p: PostId): Counts {
    Counts(|LikeKeys(m, p)|, |DislikeKeys(m, p)|)
  }

  /** The whole database: the Post, Comment and PostLike tables. */
  class Database {
    var posts: map<PostId, Post>
    var comments: map<CommentId, Comment>
    var reactions: ReactionTable
    /** The next primary key the Comment table hands out. */
    var nextCommentId: CommentId

    ghost function PostRows(): set<Post>
      reads this`posts
    {
      set id | id in posts :: posts[id]
    }

    ghost function CommentRows(): set<Comment>
      reads this
    {
      set id | id in comments :: comments[id]
    }

    /** Primary keys match the rows' ids, and foreign keys point at existing posts. */
    ghost predicate Valid()
      reads this
    {
      && (forall id | id in posts :: posts[id].id == id)
      && (forall id | id in comments :: comments[id].id == id && comments[id].post in posts && id < nextCommentId)
      && (forall k | k in reactions :: k.post in posts)
    }

    /** The post's like and dislike counters equal the number of its stored reactions of each kind. */
    ghost predicate Tallied(id: PostId)
      requires id in posts
      reads this, posts[id]
    {
      Counts(posts[id].likes, posts[id].dislikes) == Tally(reactions, id)
    }

    ghost predicate AllTallied()
      reads this, PostRows()
    {
      forall id | id in posts :: Tallied(id)
    }

    constructor ()
      ensures Valid() && AllTallied()
      ensures posts == map[] && comments == map[] && reactions == map[]
    {
      posts, comments, reactions := map[], map[], map[];
      nextCommentId := 1;
    }
  }

  /** Distinct keys of a valid database hold distinct rows. */
  lemma DistinctRows(db: Database, a: PostId, b: PostId)
    requires db.Valid() && a in db.posts && b in db.posts && a != b
    ensures db.posts[a] != db.posts[b]
  {
  }
}
