# A verified model of the blog's rules

The blog is a Django application with a single-page front end. Posts
have categories and like/dislike counters. Visitors comment and react
through AJAX views. Reactions are recorded per (post, IP address) in
the PostLike table. The admin site offers bulk actions over posts and
comments. The browser script drives the page:

- a section navigator (dots, wheel and keyboard);
- two slide carousels;
- category chips that filter the blog cards;
- a debounced live search;
- a post modal with reaction buttons and a comment form.

This project states those rules in Dafny and proves what they promise.

Modules:

- `Wrappers`: `Option`.
- `Text`: trimming (JavaScript `trim`, Python `strip`), one-character
  split, join and substring search.
- `Dom`: the one-hot `active` marker over a list of elements.
- `Models` (blog/models.py):
  - Posts and comments are classes, and `Database` holds the three
    tables as maps.
  - The PostLike table is a map from (post, ip) to `is_like`. So
    `unique_together` holds by construction: there is at most one
    stored reaction per key.
- `Forms` (blog/forms.py): the two field cleaners of CommentForm.
- `Views` (blog/views.py):
  - `get_client_ip`;
  - the validation and insert of `add_comment_ajax`;
  - the reaction toggle of `like_post_ajax`, proved to keep every
    post's counters equal to the number of its stored likes and
    dislikes;
  - `search_posts_ajax`, `get_post_data_ajax` and the ordering
    whitelist of `blog_index`.
- `Admin` (blog/admin.py): `reset_engagement`, the featured-flag
  actions and the list-display helpers.
- The browser script (blog/static/blog/js/script.js), one module per
  widget: `Navigation`, `Carousels`, `CategoryFilter`, `LiveSearch`,
  `Cookies` and `PostModal`.
  - Each handler is a method on the widget's state.
  - Timers and server replies are explicit events or parameters, so
    every handler is a deterministic state change.
  - Scenario methods show sequences of events:
    - two close wheel events;
    - a chip click followed by its hide timers;
    - a late search answer after the box was cleared;
    - a complete comment submission;
    - a reaction click going through the view and back to the buttons.

The engagement ratio is rounded half to even on the exact ratio, in
tenths of a percent. Python rounds a binary float there, so a tie can
come out differently (see Left out). The reading time is rounded half to
even on the exact quotient of two integers.

## Model

| member | source | states |
|---|---|---|
| Text.Trim | blog/views.py:115-117 | the stripped text is empty iff the input is all whitespace, and otherwise starts and ends with a non-space |
| Text.TrimIsTrimOf | blog/views.py:115-117 | Trim removes exactly a whitespace head and a whitespace tail: the result is the input's slice between them |
| Text.TrimIdempotent | blog/forms.py:52 | stripping twice is stripping once |
| Text.TrimNoEdgeSpaces | blog/static/blog/js/script.js:220 | a text with no whitespace at either end strips to itself |
| Text.Split | blog/views.py:16 | split gives at least one part, no part holds the separator, and joining the parts with it gives the text back |
| Text.SplitJoin | blog/static/blog/js/script.js:32 | splitting a join of separator-free parts gives the parts back |
| Text.Join | blog/admin.py:91 | the join starts with the first part, and its length is the parts' total plus one separator between each pair |
| Text.IsSubstringIffOccurs | blog/static/blog/js/script.js:282 | `includes` holds iff the filter occurs at some position of the text |
| Dom.Marker | blog/static/blog/js/script.js:141 | a list of n flags in which exactly the one at index k is set |
| Models.WordCount | blog/models.py:34 | the number of maximal `\w` runs: zero iff the text has no word character, and at most half the length (rounded up) |
| Models.RoundHalfEven | blog/models.py:35 | the result is within one half of n/d, and an exact tie goes to the even neighbour |
| Models.Excerpt | blog/models.py:67-69 | a body of at most 100 characters is returned unchanged; a longer one becomes its first 100 characters followed by "..." (103 in all) |
| Models.ExcerptIdempotent | blog/models.py:69 | abbreviating an excerpt again changes nothing, and an excerpt is never longer than 103 |
| Models.RatioBounds | blog/models.py:43 | a ratio rounded from likes/total lies in 0..100%, is 0 with no likes and 100% with only likes |
| Models.Post.constructor | blog/models.py:15-27 | a new post has zero likes, dislikes and views and is not featured |
| Models.Post.ReadingTime | blog/models.py:32-36 | at least one minute; one minute up to 100 words; otherwise words/200 rounded to the nearest minute, an exact half going to the even minute |
| Models.Post.EngagementRatio | blog/models.py:38-43 | 0 with no reactions or no likes, 100% with likes and no dislikes, always within 0..100%, and within half a tenth of the exact share of likes |
| Models.Post.IncrementViews | blog/models.py:45-48 | views go up by exactly one and no other field changes |
| Models.Comment.constructor | blog/models.py:53-62 | a new comment holds the given fields and is not featured |
| Forms.CleanBody | blog/forms.py:42-46 | rejected with its message iff the body is over 1000 characters; an accepted body is returned unchanged |
| Forms.CleanAuthor | blog/forms.py:48-52 | a non-empty author is rejected iff it strips to under two characters (so all-whitespace is rejected); an accepted one comes back stripped; an absent or empty one comes back as it was |
| Forms.CleanAuthorIdempotent | blog/forms.py:52 | cleaning the cleaner's own output gives the same result |
| Admin.DropReactions | blog/admin.py:102 | the PostLike table keeps exactly the rows of posts outside the selection, with their flags |
| Admin.DropReactionsTally | blog/admin.py:101-102 | a selected post is left with no likes or dislikes stored; any other post's tally is unchanged |
| Admin.DropReactionsTwice | blog/admin.py:96-102 | deleting one more post's reactions is deleting them for the enlarged selection |
| Admin.ClearCounters | blog/admin.py:97-100 | the post's likes, dislikes and views become zero, and nothing else changes |
| Admin.DeleteReactions | blog/admin.py:102 | the table loses exactly the given post's reactions |
| Admin.ResetKeepsTallied | blog/admin.py:96-102 | zeroed counters of reset posts and untouched counters of the others still equal their stored reactions |
| Admin.ResetEngagement | blog/admin.py:94-105 | every selected post has zero likes, dislikes and views; the table loses exactly the selected posts' reactions; posts outside the selection are untouched; counters that followed the stored reactions still do |
| Admin.UpdatePostsFeatured | blog/admin.py:108-116 | every selected post gets the flag, and no other field or post changes |
| Admin.UpdateCommentsFeatured | blog/admin.py:145-153 | every selected comment gets the flag, and no other field or comment changes |
| Admin.EngagementColour | blog/admin.py:54-56 | green iff the ratio is at least 70%, amber iff in 40..70%, red iff below 40% |
| Admin.ColourOfExtremes | blog/admin.py:55-56 | a post liked and never disliked shows green; a post nobody liked shows red |
| Admin.HasEmail | blog/admin.py:141-142 | an envelope iff the email is non-empty, a cross iff it is empty |
| Admin.ReactionLabel | blog/admin.py:161-162 | the like label iff `is_like`, the dislike label otherwise |
| Admin.CategoryList | blog/admin.py:90-91 | no names give the empty text; otherwise it starts with the first name and has the names' total length plus two characters per separator |
| Views.ClientIp | blog/views.py:12-19 | with a non-empty X-Forwarded-For, the unstripped text before its first comma (the whole header when there is none); otherwise REMOTE_ADDR |
| Views.EmailShapeIffParts | blog/views.py:130 | the email check holds iff the text is a + "@" + b + "." + c with non-empty a, b, c free of "@" |
| Views.EmailShapeGivesParts | blog/views.py:130 | an accepted email splits as the pattern's three non-empty parts |
| Views.PartsGiveEmailShape | blog/views.py:130 | any text built from the pattern's three parts is accepted |
| Views.AllGiven | blog/views.py:120 | `all([post_id, author, body])` on the decoded id and the stripped texts: an id that is present and non-zero, and a non-empty author and body |
| Views.EmailShape | blog/views.py:130 | the regular expression `^[^@]+@[^@]+\.[^@]+$`: one `@` that is not first, with a `.` after it that is neither the first nor the last character of the rest (characterised by Views.EmailShapeIffParts) |
| Views.CheckComment | blog/views.py:119-131 | each 400 reason holds iff its check is the first to fail, in the view's order (missing fields, body over 1000, author over 60, bad non-empty email); none iff all pass |
| Views.CreateComment | blog/views.py:135-141 | one new comment under a fresh key with the given fields; posts, reactions and other comments unchanged |
| Views.AddCommentAjax | blog/views.py:110-156 | a failed check gives 400 with its message and a missing post gives 500, both leaving the database unchanged; otherwise exactly one comment is stored holding the stripped author, body and email |
| Views.LikeAction.Name | blog/views.py:189 | the reply's action text is "added", "removed" or "changed" for the corresponding action, one to one |
| Views.Decrement | blog/views.py:182 | `max(0, n - 1)`: one less for a positive count, zero stays zero |
| Views.React | blog/views.py:176-231 | no stored reaction: add it and raise the chosen counter by one; the same one: remove it, with the counter never going up; the opposite one: flip it, raise the new counter and never raise the other |
| Views.Lookup | blog/views.py:174 | the stored reaction for (post, ip), if any |
| Views.Store | blog/views.py:176-217 | after a create, flip or delete, the key holds exactly the new value and every other key is as before |
| Views.StoreKeys | blog/views.py:179 | one store changes a post's sets of like and dislike keys by at most the stored key |
| Views.ReactKeepsTally | blog/views.py:176-223 | if a post's counters equalled its stored likes and dislikes before a request, they equal them after it, so the `max(0, …)` floor never applies |
| Views.StoreKeepsOtherTallies | blog/views.py:174-217 | a reaction to one post leaves every other post's tally unchanged |
| Views.AddThenSameRestores | blog/views.py:176-193 | a new reaction followed by the same reaction restores both the table and the counters |
| Views.RemoveThenSameReadds | blog/views.py:176-231 | removing a stored reaction and sending it again stores it back with the original counters |
| Views.ReactionName | blog/views.py:264-266 | "like" iff a like is stored, "dislike" iff a dislike is, nothing iff none is |
| Views.LikePostAjax | blog/views.py:160-234 | may change only the PostLike table and the named post's likes and dislikes; a missing field gives 400, a missing post gives 500, and a request without a client address gives 500 (the PostLike address is required), all with no change; otherwise the table and the post's counters change as React says, the post's other fields and the other tables stay as they were, the reply reports the new counters, and counters that followed the stored reactions still do |
| Views.ToResults | blog/views.py:302-310 | one result per post, in order, carrying the post's id, title, excerpt, categories, views and likes |
| Views.SearchPostsAjax | blog/views.py:289-312 | no results for a stripped query under two characters; otherwise the first min(10, matches) matching posts in order, each with its excerpt |
| Views.GetPostDataAjax | blog/views.py:236-286 | may change only the post's views; a missing post gives 500; otherwise views go up by one and the reply carries the post's title, body, categories, featured flag, counters, reading time (at least 1), ratio (at most 100%) and the caller's stored reaction, none when the request has no client address |
| Views.IndexOrder | blog/views.py:35-37 | a whitelisted `order` is applied as given; anything else falls back to newest first |
| Navigation.Neighbour | blog/static/blog/js/script.js:97-116 | down asks for current+1 and up for current-1, always inside the sections; nothing iff already at that end |
| Navigation.SectionNavigator.constructor | blog/static/blog/js/script.js:59-60 | the first section and dot active, no lock, no wheel event yet |
| Navigation.SectionNavigator.ShowSection | blog/static/blog/js/script.js:62-82 | a no-op while locked or for the current index; otherwise exactly the new section and dot are active, the footer is small iff the index is not 0, the typewriters show iff it is 0, and the lock is taken |
| Navigation.SectionNavigator.Start | blog/static/blog/js/script.js:119 | the startup `showSection(0)` changes nothing |
| Navigation.SectionNavigator.TransitionEnded | blog/static/blog/js/script.js:81 | the 800 ms timer releases the lock |
| Navigation.SectionNavigator.Wheel | blog/static/blog/js/script.js:92-103 | an event within 700 ms of the last accepted one changes nothing and keeps the default; any other records its time even when nothing moves, moves to the neighbour in the wheel's direction unless locked, and prevents the default; after a move the lock is taken, the footer is small except on the first section and the typewriters show only there; without a move the lock, footer and typewriter flags stay as they were |
| Navigation.SectionNavigator.KeyDown | blog/static/blog/js/script.js:105-117 | the arrow and page keys move to the neighbour unless locked; the default is prevented iff that neighbour exists; after a move the lock is taken, the footer is small except on the first section and the typewriters show only there; without a move the lock, footer and typewriter flags stay as they were; other keys change nothing |
| Navigation.WheelTwice | blog/static/blog/js/script.js:93-95 | of two wheel events under 700 ms apart, the first moves to its neighbour unless locked and the second is ignored: the section, dots and lock, footer and typewriter flags stay as the first event left them |
| Carousels.SlideIndex | blog/static/blog/js/script.js:134-136 | below 0 goes to the last item, at or past the end goes to the first, otherwise the request itself; always a valid index |
| Carousels.SlideIndexIsModular | blog/static/blog/js/script.js:144-145 | for the one-step requests the buttons make, the wrap equals the index modulo the item count |
| Carousels.NextThenPrev | blog/static/blog/js/script.js:144-145 | next then previous, and previous then next, come back to the same item |
| Carousels.AdvanceIsRotation | blog/static/blog/js/script.js:145 | n clicks on next from i show item (i + n) mod count |
| Carousels.FullTurn | blog/static/blog/js/script.js:145 | as many clicks on next as there are items come back to the start |
| Carousels.Carousel.constructor | blog/static/blog/js/script.js:131 | a carousel starts at item 0 with the dots as rendered |
| Carousels.Carousel.ShowSlide | blog/static/blog/js/script.js:133-142 | the index is the wrapped request, the strip's offset is minus index times width, and exactly the dot at the index is active |
| Carousels.Carousel.Prev | blog/static/blog/js/script.js:144 | moves one item back, modulo the count |
| Carousels.Carousel.Next | blog/static/blog/js/script.js:145 | moves one item on, modulo the count |
| Carousels.Carousel.DotClick | blog/static/blog/js/script.js:147-149 | shows the dot's item, or the first item for a dot past the last item |
| Carousels.Carousel.Resize | blog/static/blog/js/script.js:152 | keeps the item and re-offsets the strip for the new width |
| Carousels.InitCarousel | blog/static/blog/js/script.js:122-151 | nothing is set up iff the wrapper is missing or there are no items; otherwise item 0 is shown with its dot active |
| CategoryFilter.AllMatchesEverything | blog/static/blog/js/script.js:282 | the "all" chip matches every card |
| CategoryFilter.MatchesWithinLongerText | blog/static/blog/js/script.js:280-282 | a matching filter still matches inside any longer categories text, so "java" matches "javascript" |
| CategoryFilter.Matches | blog/static/blog/js/script.js:282 | a card matches the "all" chip, or any chip whose text occurs in the card's categories (characterised by Text.IsSubstringIffOccurs) |
| CategoryFilter.Unmatched | blog/static/blog/js/script.js:279-292 | the increasing indices of exactly the cards the filter does not match |
| CategoryFilter.ChipFilter.constructor | blog/static/blog/js/script.js:267-268 | the chips and cards as rendered, with no hide timer running |
| CategoryFilter.ChipFilter.ClickChip | blog/static/blog/js/script.js:270-295 | exactly the clicked chip is active; a card is hidden iff it does not match; a shown card displays as block and a hidden one keeps its display; one hide timer is queued per hidden card, in card order |
| CategoryFilter.ChipFilter.HideTimerFires | blog/static/blog/js/script.js:287-291 | the oldest timer fires and takes its card out of the layout only if the card is still hidden; nothing else changes |
| CategoryFilter.ClickAndSettle | blog/static/blog/js/script.js:270-295 | after a click and all its timers, exactly the matching cards display as block and all others are out of the layout |
| LiveSearch.SearchBox.constructor | blog/static/blog/js/script.js:215-216 | no timer pending and an empty, hidden panel |
| LiveSearch.SearchBox.Input | blog/static/blog/js/script.js:219-230 | returns the stripped text; the old timer is cancelled; a stripped text under two characters empties and hides the panel; otherwise exactly one timer is pending, holding the stripped text |
| LiveSearch.SearchBox.TimerFires | blog/static/blog/js/script.js:230-232 | the pending query is sent; it has at least two characters and no edge whitespace |
| LiveSearch.SearchBox.AnswerArrives | blog/static/blog/js/script.js:235-254 | a failure changes nothing; any answer shows the panel, holding the results iff there are some and the "no results" message otherwise |
| LiveSearch.SearchBox.DocumentClick | blog/static/blog/js/script.js:259-263 | a click outside the box and the panel hides the panel; one inside leaves it |
| LiveSearch.SentQueryIsServed | blog/static/blog/js/script.js:224-232 | every query the box sends passes the view's length gate, so the view answers with results iff some post matched |
| LiveSearch.LateAnswerAfterClearing | blog/static/blog/js/script.js:219-255 | an answer arriving after the box was cleared still fills and shows the panel |
| Cookies.Stripped | blog/static/blog/js/script.js:32-34 | every entry of the header with its edge whitespace stripped |
| Cookies.FirstNamed | blog/static/blog/js/script.js:33-38 | no entry before the found position starts with `name=`, and the one at it does |
| Cookies.FirstNamedIs | blog/static/blog/js/script.js:33-38 | the first entry starting with `name=` is the one FirstNamed finds |
| Cookies.RawValue | blog/static/blog/js/script.js:29-41 | nothing iff the header is empty or no stripped entry starts with `name=`; otherwise what follows `name=` in the first entry that does |
| Cookies.GetCookie | blog/static/blog/js/script.js:29-42 | null when RawValue finds nothing, otherwise the decoded RawValue |
| Cookies.SplitWithout | blog/static/blog/js/script.js:32 | a header without ';' is a single entry |
| Cookies.SingleCookie | blog/static/blog/js/script.js:29-41 | a header holding only `name=value` gives the value back |
| Cookies.LongerNameIsNotFound | blog/static/blog/js/script.js:35 | a name that is a proper prefix of the stored cookie's name finds nothing ("csrf" in `csrftoken=…`) |
| Cookies.FirstEntryWins | blog/static/blog/js/script.js:33-38 | when two entries carry the name, the first one's value is returned |
| PostModal.ScaleOf | blog/static/blog/js/script.js:44-48 | millions iff at least 1000000, thousands iff in 1000..999999, plain below 1000 |
| PostModal.ScaleMonotone | blog/static/blog/js/script.js:44-48 | a larger count is never written in a smaller unit |
| PostModal.ButtonFlags | blog/static/blog/js/script.js:492-493 | the like button is active iff the reply says "like", the dislike button iff it says "dislike", never both |
| PostModal.ButtonsShowStoredReaction | blog/static/blog/js/script.js:492-493 | through the view's reply, each button is active iff that reaction is stored for the address |
| PostModal.ActionText | blog/static/blog/js/script.js:502-503 | "eliminada" iff the action is "removed", "cambiada" iff "changed", "agregada" for anything else |
| PostModal.ActionTextOfReply | blog/static/blog/js/script.js:502-503 | each action the view reports gets its own verb |
| PostModal.ReactionToast | blog/static/blog/js/script.js:502-505 | the success toast: "Reacción ", the action's verb from ActionText, then "like" or "dislike" for the button pressed |
| PostModal.ReactionButtons.constructor | blog/static/blog/js/script.js:444-452 | counters and active flags as the post's data gives them |
| PostModal.ReactionButtons.HandleLikeResult | blog/static/blog/js/script.js:484-506 | an unsuccessful or failed request changes nothing and shows the error toast; a success sets both counters and both flags from the reply and shows the reaction toast |
| PostModal.ReactAndShow | blog/static/blog/js/script.js:476-506 | after a click handled by the view, the buttons show exactly the reaction stored for the address and the post's true like and dislike counts |
| PostModal.CheckCommentForm | blog/static/blog/js/script.js:621-634 | sends the stripped fields iff author and body are non-empty and the body is at most 1000; otherwise blocks with the view's message for that check |
| PostModal.FormAgreesWithView | blog/static/blog/js/script.js:626-634 | whatever the form blocks the view refuses with the same message; for what it sends only the author length and the email shape remain to check |
| PostModal.SubmitButton.constructor | blog/static/blog/js/script.js:636-637 | an enabled button holding its caption |
| PostModal.SubmitButton.Submit | blog/static/blog/js/script.js:618-639 | a blocked form leaves the button alone; otherwise the caption is saved, the spinner shown and the button disabled |
| PostModal.SubmitButton.Settle | blog/static/blog/js/script.js:641-652 | comments reload iff a comment was created; in every case the caption comes back and the button is enabled |
| PostModal.SubmitComment | blog/static/blog/js/script.js:618-653 | after any outcome the button is enabled with its original caption, and comments reload iff the form sent and the view created a comment |
| PostModal.CharCountColour | blog/static/blog/js/script.js:600-612 | red iff over 900 characters, amber iff 751..900, green otherwise |
| PostModal.CharCountMonotone | blog/static/blog/js/script.js:605-611 | typing more never makes the warning milder |

## Left out

- HTML markup is not modelled: innerHTML templates, notification toasts (apart from the reaction toast texts), animations, the IntersectionObserver, the comments toggle, the modal open/close buttons and the Escape key. They render state and hold no rule.
- The contact form (blog/static/blog/js/script.js:180-212) only shows notifications.
- The logo link calls `showSection(0)`, which `ShowSection` covers.
- A card click forwards to its "read more" link. This is not modelled.
- `loadPostData`, `submitComment` and `likePost` are not modelled: their fetch, JSON parsing and error messages are I/O. A failed or non-OK request is the `None` reply.
- `encodeURIComponent` of the search query is not modelled: the view receives the text the box sent.
- `decodeURIComponent` is the `decode` parameter of `Cookies.GetCookie`, so its `URIError` on malformed input is not modelled.
- PostModal.ScaleOf: only the unit is modelled, not the `toFixed(1)` digits.
- The client-side ratio and its percentage text (blog/static/blog/js/script.js:496-499) are floating-point formatting.
- Models.Post.EngagementRatio: the result is an exact integer of tenths of a percent, rounded half to even. Python rounds a binary float, which can differ on ties.
- Text.Trim: whitespace is the ASCII set both languages remove (space, tab, line feed, carriage return, vertical tab, form feed). JavaScript's `trim` and Python's `strip` use different Unicode sets: `trim` also removes U+FEFF and `strip` does not; `strip` also removes U+001C to U+001F and U+0085 and `trim` does not; both remove further Unicode spaces. One `Trim` stands for both.
- PostModal.FormAgreesWithView: the agreement holds only where `trim` and `strip` classify the edge characters alike. A body of U+001F is sent by the form and refused by the view as missing; a body of U+FEFF is blocked by the form and would be accepted by the view.
- LiveSearch.SentQueryIsServed: holds only where `trim` and `strip` classify the edge characters alike. The query U+001F followed by "a" is sent by the box, and the view strips it to one character and returns no results.
- Models.WordCount: `\w` is the ASCII letters, digits and underscore, not the Unicode class.
- JavaScript lengths count UTF-16 code units and Python lengths count code points. Both are sequence lengths here.
- Views.SearchPostsAjax: the case-insensitive title/body/category filter and `distinct` are the ORM's. The posts they return are the `matching` parameter. Dates are not modelled.
- Views.React: the floored decrement is stated as a bound: the counter never goes up. The exact count for a tallied post is stated by `ReactKeepsTally`.
- Views.AddCommentAjax and Views.LikePostAjax take the JSON fields already decoded (`Option<int>`, `Option<bool>`, strings). The page sends `post_id` as the card's `data-post-id` text (blog/static/blog/js/script.js:381), and `get_object_or_404` accepts that text as a key; `Option<int>` stands for it. A malformed body is not modelled.
- Views.CheckComment: treats post id 0 as missing, as Python does for the integer 0. The page's text "0" is truthy in Python, so for "0" the view goes on to the lookup and answers 500 (no post has key 0) where Views.AddCommentAjax answers 400.
- Views.ClientIp: an absent REMOTE_ADDR is `None`. The stored comment's address is optional, as the field is.
- Views.GetPostDataAjax: the reply leaves out the post's `image` and `date`, and the `comments` list (ordered featured first, then newest first). Its categories are the names only, without their colour and icon.
- Views.LikePostAjax: without a client address the source fails when it creates the PostLike row; the 500 reply's text is the database's, and the model uses SQLite's NOT NULL message.
- `blog_index`, `blog_category` and `blog_detail` are not modelled, apart from the ordering whitelist: their filtering, pagination and template rendering belong to Django. `blog_detail`'s form path uses the two `Forms` cleaners.
- Admin: the success messages, `format_html` markup, `engagement_stats`, `CategoryAdmin`'s previews and the site titles are not modelled. `comment_preview` is `Models.Excerpt`.
- Navigation: the dots and the sections are assumed to be equally many. The page renders them so.
- CategoryFilter: a chip without `data-filter` (undefined filter) is not modelled. The filter is always a string.
- Concurrency is not modelled beyond sequential interleavings of events, and `LateAnswerAfterClearing` shows one such interleaving. Two like requests racing on the same post are not modelled.
- The migrations and URL configuration are declarative. They are not part of this model.
