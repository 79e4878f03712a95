/**
 The records the robots.txt grammar produces: one per directive line, each
 with its value and the trailing comment of its line if there is one, and
 one per standalone comment.
 */
module Records {
  import opened Combinators
  import opened Chars

  /** The tag of a directive record, as the source names its result keys. */
  datatype Field = UserAgent | Allow | Disallow | OtherMemberField | Sitemap | OtherNonGroupField

  datatype Record =
    | Directive(field: Field, value: string, comment: Option<string>)
    | Comment(text: string)

  predicate IsUserAgent(r: Record) {
    r.Directive? && r.field == UserAgent
  }

  /** Text a textvalue can produce: no `#`, no control character. */
  predicate IsTextValue(v: string) {
    forall i :: 0 <= i < |v| ==> IsValuechar(v[i])
  }

  /** Text a comment can produce: trimmed, and no control character. */
  predicate IsCommentText(c: string) {
    IsTrimmed(c) && forall i :: 0 <= i < |c| ==> IsAnychar(c[i])
  }

  predicate IsCommentField(c: Option<string>) {
    c.Some? ==> IsCommentText(c.value)
  }
}
