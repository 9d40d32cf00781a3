/**
 * CommentForm's field cleaners (blog/forms.py). A cleaner reads the value
 * the field produced, which may be absent, and either returns the value to
 * keep or raises a validation error.
 */
module Forms {
  import opened Wrappers
  import opened Text
  import Models

  datatype Cleaned<T> = Accepted(value: T) | Rejected(message: string)

  const BodyTooLong := "El comentario no puede exceder 1000 caracteres."
  const AuthorTooShort := "El nombre debe tener al menos 2 caracteres."

  /** Python truthiness of an optional string: present and non-empty. */
  predicate Truthy(s: Option<string>) {
    s.Some? && s.value != ""
  }

  /** clean_body: a body over the declared 1000-character bound is
      rejected; any other value, absent or empty included, is kept as it is. */
  function CleanBody(body: Option<string>): (r: Cleaned<Option<string>>)
    ensures r.Rejected? <==> body.Some? && |body.value| > Models.BodyMaxLength
    ensures r.Rejected? ==> r.message == BodyTooLong
    ensures r.Accepted? ==> r.value == body
    ensures r.Accepted? && body.Some? ==> |r.value.value| <= Models.BodyMaxLength
  {
    if Truthy(body) && |body.value| > Models.BodyMaxLength then Rejected(BodyTooLong)
    else Accepted(body)
  }

  /** clean_author: a non-empty author with fewer than two characters left
      after stripping is rejected, so a whitespace-only author is rejected;
      otherwise the stripped author is kept, and an absent or empty one is
      kept unchanged. */
  function CleanAuthor(author: Option<string>): (r: Cleaned<Option<string>>)
    ensures r.Rejected? <==> Truthy(author) && |Trim(author.value)| < 2
    ensures r.Rejected? ==> r.message == AuthorTooShort
    ensures Truthy(author) && AllSpace(author.value) ==> r.Rejected?
    ensures r.Accepted? && Truthy(author) ==> r.value == Some(Trim(author.value)) && |r.value.value| >= 2
    ensures r.Accepted? && !Truthy(author) ==> r.value == author
  {
    if Truthy(author) && |Trim(author.value)| < 2 then Rejected(AuthorTooShort)
    else if Truthy(author) then Accepted(Some(Trim(author.value)))
    else Accepted(author)
  }

  /** Cleaning an author the cleaner has already produced gives it back. */
  lemma {:induction false} CleanAuthorIdempotent(author: Option<string>)
    requires CleanAuthor(author).Accepted?
    ensures CleanAuthor(CleanAuthor(author).value) == CleanAuthor(author)
  {
    if Truthy(author) {
      TrimIdempotent(author.value);
    }
  }
}
