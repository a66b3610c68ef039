/**
 * The entities the handlers and pages pass around, with only the fields the
 * modelled logic reads. Identifiers are kept as the strings that arrive in
 * request paths.
 */
module Blog {
  type Id = string

  /** A comment as the services return it. */
  datatype Comment = Comment(id: Id, text: string)

  /** An article as `findAll(true)` / `findOne(id, {comments: true})` return it: with its comments. */
  datatype Article = Article(id: Id, title: string, comments: seq<Comment>)

  /** `item.comments.length`. */
  function CommentCount(a: Article): nat
  {
    |a.comments|
  }
}
