/**
 What each line rule reads from a well-formed line
   [blanks] keyword [blanks] ":" [blanks] value [blanks] ["#" comment] EOL
 for every listed keyword spelling, every value and every trailing comment:
 the record's tag, value and comment, and the input left after the line
 ending (src/parsers.js, lines 62-132).
 */
module Readings {
  import opened Combinators
  import opened Chars
  import opened Lexical
  import opened Records
  import opened Lines

  /** Spaces and tabs only, possibly none. */
  predicate IsBlanks(b: string) {
    forall i :: 0 <= i < |b| ==> IsBlank(b[i])
  }

  /** Text the comment rule reads whole: no control character and no line terminator. */
  predicate IsLineText(c: string) {
    forall i :: 0 <= i < |c| ==> IsAnychar(c[i])
  }

  /** The end of a line: an optional `#` comment, then the line ending `e`. */
  function LineEnd(comment: Option<string>, e: string): string {
    match comment
    case None => e
    case Some(c) => "#" + c + e
  }

  /** The comment a record carries for the trailing comment `comment`: its text, trimmed. */
  function ReadComment(comment: Option<string>): Option<string> {
    match comment
    case None => None
    case Some(c) => Some(Trim(c))
  }

  /**
   A line that ends in `comment` and `e`, followed by the text `x`: `e` is a
   line ending, the comment is line text, a lone CR is not followed by the LF
   that would make it CR LF, and a line without a comment is not followed by
   a blank. LWS may span a line ending, so a next line that starts with a
   blank continues the line before it and can supply its comment.
   */
  predicate WellEnded(comment: Option<string>, e: string, x: string) {
    && IsEolText(e)
    && (comment.Some? ==> IsLineText(comment.value))
    && !(e == "\r" && |x| > 0 && x[0] == '\n')
    && (comment.None? ==> !BlankAt(x, 0))
  }

  /** A value that begins neither with a blank nor with a line ending. */
  predicate StartsValue(v: string) {
    |v| > 0 && !IsBlank(v[0]) && !IsEolChar(v[0])
  }

  // ---------------------------------------------------------------------
  // The pieces of a line.

  /** Optional LWS skips exactly the blanks in front of text that LWS cannot start. */
  lemma OptLwsSkips(b: string, y: string)
    requires IsBlanks(b) && !BlankAt(y, 0)
    requires |b| == 0 ==> Lws(y).Fail?
    ensures OptLws(b + y) == y
  {
    if |b| > 0 {
      assert "" + b + y == b + y;
      LwsReads("", b, y);
    } else {
      assert b + y == y;
    }
  }

  /** Where a value starts, neither a blank nor LWS starts. */
  lemma ValueStartIsNoLws(y: string)
    requires StartsValue(y)
    ensures !BlankAt(y, 0) && Lws(y).Fail?
  {
  }

  /** The end of a line starts with `#` or a line ending, and no LWS starts there. */
  lemma LineEndStart(comment: Option<string>, e: string, x: string)
    requires WellEnded(comment, e, x)
    ensures var t := LineEnd(comment, e) + x;
      |t| > 0 && !IsValuechar(t[0]) && !BlankAt(t, 0) && Lws(t).Fail?
  {
    var t := LineEnd(comment, e) + x;
    match comment
    case Some(c) =>
      assert t[0] == '#';
    case None =>
      assert t == e + x;
      assert t[0] == e[0];
      if |e| == 1 {
        assert |x| > 0 ==> t[1] == x[0];
      } else {
        assert t[1] == '\n';
        assert |x| > 0 ==> t[2] == x[0];
      }
  }

  /** `[LWS] ":" [LWS]` reads blanks, the colon and blanks, and stops where the value starts. */
  lemma ColonReads(b0: string, b: string, y: string)
    requires IsBlanks(b0) && IsBlanks(b) && !BlankAt(y, 0)
    requires |b| == 0 ==> Lws(y).Fail?
    ensures Colon(b0 + (":" + (b + y))) == Ok(":", y)
  {
    var u := ":" + (b + y);
    assert Lws(u).Fail?;
    OptLwsSkips(b0, u);
    assert Literal(":", u) == Ok(":", b + y) by {
      PrefixOfConcat(":", b + y);
    }
    OptLwsSkips(b, y);
  }

  /** The comment rule reads the same text once its leading LWS is skipped. */
  lemma CommentAfterBlanks(s: string, t: string)
    requires OptLws(s) == t && OptLws(t) == t
    ensures CommentText(s) == CommentText(t)
  {
  }

  /** With no comment, the optional comment is absent and the line ending is left. */
  lemma NoTrailingComment(e: string, x: string)
    requires WellEnded(None, e, x)
    ensures MaybeComment(e + x) == Ok(None, e + x)
  {
    LineEndStart(None, e, x);
    assert LineEnd(None, e) + x == e + x;
    assert OptLws(e + x) == e + x;
  }

  /** A `#` comment after blanks is read, trimmed, up to the first character that is not line text. */
  lemma CommentAfterGap(b2: string, c: string, y: string)
    requires IsBlanks(b2) && IsLineText(c)
    requires |y| > 0 && !IsAnychar(y[0])
    ensures CommentText(b2 + ("#" + c + y)) == Ok(Trim(c), y)
  {
    var t := "#" + c + y;
    assert !BlankAt(t, 0) && Lws(t).Fail?;
    OptLwsSkips(b2, t);
    OptLwsSkips("", t);
    assert "" + t == t;
    CommentAfterBlanks(b2 + t, t);
    CommentReads(c, y);
  }

  /** A trailing `#` comment after blanks is read, trimmed, up to its line ending. */
  lemma TrailingCommentReads(b2: string, c: string, e: string, x: string)
    requires IsBlanks(b2) && WellEnded(Some(c), e, x)
    ensures MaybeComment(b2 + (LineEnd(Some(c), e) + x)) == Ok(Some(Trim(c)), e + x)
  {
    var y := e + x;
    assert y[0] == e[0];
    assert LineEnd(Some(c), e) + x == "#" + c + y;
    CommentAfterGap(b2, c, y);
  }

  /** The optional trailing comment of a line, in either case. */
  lemma MaybeCommentReads(b2: string, comment: Option<string>, e: string, x: string)
    requires IsBlanks(b2) && (comment.None? ==> b2 == "")
    requires WellEnded(comment, e, x)
    ensures MaybeComment(b2 + (LineEnd(comment, e) + x)) == Ok(ReadComment(comment), e + x)
  {
    match comment
    case None =>
      assert b2 + (LineEnd(comment, e) + x) == e + x;
      NoTrailingComment(e, x);
    case Some(c) =>
      TrailingCommentReads(b2, c, e, x);
  }

  /**
   `[comment] EOL` after a field and its value: the record carries the
   trimmed comment, if the line has one, and the input left is the text after
   the line ending.
   */
  lemma FinishLineReads(s: string, f: Field, v: string, b2: string, comment: Option<string>, e: string, x: string)
    requires IsBlanks(b2) && (comment.None? ==> b2 == "")
    requires WellEnded(comment, e, x)
    requires |b2 + (LineEnd(comment, e) + x)| <= |s|
    ensures FinishLine(s, Ok((f, v), b2 + (LineEnd(comment, e) + x))) == Ok(Directive(f, v, ReadComment(comment)), x)
  {
    MaybeCommentReads(b2, comment, e, x);
    EolReads(e, x);
  }

  /** pathvalue on a value that starts with `/`, when the URL path rule reads the rest of it. */
  lemma PathValueOf(ext: Externals, v: string, w: string)
    requires |v| > 0 && v[0] == '/' && ext.path(v[1..] + w) == Ok(v[1..], w)
    ensures PathValue(ext, v + w) == Ok(v, w)
  {
    assert v == "/" + v[1..];
    assert v + w == "/" + v[1..] + w;
    PathValueReads(ext, v[1..], w);
  }

  // ---------------------------------------------------------------------
  // Whole lines.

  /**
   The parts of one directive line, in order:
     lead name gap ":" space value trail ["#" comment] eol
   `lead`, `gap`, `space` and `trail` are runs of blanks, `name` is the field
   name (empty for the "other" fields) and `comment` is the text after `#`.
   */
  datatype LineParts = LineParts(
    lead: string, name: string, gap: string, space: string,
    value: string, trail: string, comment: Option<string>, eol: string)

  /** The text of the line `p`, followed by the text `x` of the lines after it. */
  function LineText(p: LineParts, x: string): string {
    p.lead + (p.name + (p.gap + (":" + (p.space + (p.value + (p.trail + (LineEnd(p.comment, p.eol) + x)))))))
  }

  /** What the line leaves for the rule after its value: the trailing blanks, the comment, the line ending, then `x`. */
  function AfterValue(p: LineParts, x: string): string {
    p.trail + (LineEnd(p.comment, p.eol) + x)
  }

  /**
   The blanks are blanks, blanks before a comment come only with a comment,
   and the line is well ended before `x`.
   */
  predicate WellSpaced(p: LineParts, x: string) {
    && IsBlanks(p.lead) && IsBlanks(p.gap) && IsBlanks(p.space) && IsBlanks(p.trail)
    && (p.comment.None? ==> p.trail == "")
    && WellEnded(p.comment, p.eol, x)
  }

  /**
   A text-valued line: the value is a text value that does not start with a
   blank (LWS would take it). textvalue also takes spaces, so only tabs can
   separate it from a comment; with an empty value all blanks after the colon
   are counted as `space`.
   */
  predicate TextValued(p: LineParts) {
    && IsTextValue(p.value) && !BlankAt(p.value, 0)
    && (|p.trail| == 0 || p.trail[0] == '\t')
    && (|p.value| == 0 ==> p.trail == "")
  }

  /** The record a line with field `f` reads as. */
  function LineRecord(f: Field, p: LineParts): Record {
    Directive(f, p.value, ReadComment(p.comment))
  }

  /** After the colon, LWS stops where a text value starts, and textvalue reads it whole. */
  lemma TextValueOfLine(p: LineParts, x: string)
    requires WellSpaced(p, x) && TextValued(p)
    ensures var y := p.value + AfterValue(p, x);
      && !BlankAt(y, 0) && (|p.space| == 0 ==> Lws(y).Fail?)
      && TextValue(y) == Ok(p.value, AfterValue(p, x))
  {
    var t := LineEnd(p.comment, p.eol) + x;
    var w := AfterValue(p, x);
    LineEndStart(p.comment, p.eol, x);
    if |p.trail| > 0 {
      assert w[0] == '\t';
    } else {
      assert w == t;
    }
    TextValueReads(p.value, w);
    if |p.value| > 0 {
      assert (p.value + w)[0] == p.value[0];
    } else {
      assert p.value + w == t;
    }
  }

  /** The colon of a line, and the blanks around it. */
  lemma ColonOfLine(p: LineParts, x: string)
    requires WellSpaced(p, x)
    requires var y := p.value + AfterValue(p, x); !BlankAt(y, 0) && (|p.space| == 0 ==> Lws(y).Fail?)
    ensures Colon(p.gap + (":" + (p.space + (p.value + AfterValue(p, x))))) == Ok(":", p.value + AfterValue(p, x))
  {
    ColonReads(p.gap, p.space, p.value + AfterValue(p, x));
  }

  /** `[comment] EOL` of a line, after its value. */
  lemma EndOfLine(s: string, f: Field, p: LineParts, x: string)
    requires WellSpaced(p, x) && |AfterValue(p, x)| <= |s|
    ensures FinishLine(s, Ok((f, p.value), AfterValue(p, x))) == Ok(LineRecord(f, p), x)
  {
    FinishLineReads(s, f, p.value, p.trail, p.comment, p.eol, x);
  }

  /** The text after a line's field name. */
  function AfterName(p: LineParts, x: string): string {
    p.gap + (":" + (p.space + (p.value + AfterValue(p, x))))
  }

  /** A line whose field name starts with a letter: optional LWS leaves the name. */
  lemma NameAfterLead(p: LineParts, x: string)
    requires IsBlanks(p.lead) && |p.name| > 0 && 'A' <= p.name[0] <= 'z'
    ensures LineText(p, x) == p.lead + (p.name + AfterName(p, x))
    ensures OptLws(LineText(p, x)) == p.name + AfterName(p, x)
  {
    var n := p.name + AfterName(p, x);
    assert n[0] == p.name[0];
    assert StartsValue(n);
    ValueStartIsNoLws(n);
    OptLwsSkips(p.lead, n);
  }

  /**
   startgroupline on `[blanks] user-agent [blanks] ":" [blanks] name [#comment] EOL`
   yields a user-agent record with that name and the trimmed comment, and
   leaves the text after the line ending.
   */
  lemma StartGroupLineReads(p: LineParts, x: string)
    requires WellSpaced(p, x) && TextValued(p)
    requires p.name in UserAgentSpellings
    ensures StartGroupLine(LineText(p, x)) == Ok(LineRecord(UserAgent, p), x)
  {
    var s := LineText(p, x);
    var u := AfterName(p, x);
    var y := p.value + AfterValue(p, x);
    NameAfterLead(p, x);
    UserAgentFieldReads(p.name, u);
    TextValueOfLine(p, x);
    ColonOfLine(p, x);
    AgentValueReads(p.value, AfterValue(p, x));
    EndOfLine(s, UserAgent, p, x);
    StartGroupLineFromParts(s, p.name + u, p.name, u, y, LineRecord(UserAgent, p), x);
  }

  lemma StartGroupLineFromParts(s: string, t: string, k: string, u: string, y: string, r: Record, x: string)
    requires OptLws(s) == t && UserAgentField(t) == Ok(k, u) && |u| <= |s|
    requires Colon(u) == Ok(":", y)
    requires FinishLine(s, Ok((UserAgent, AgentValue(y).value), AgentValue(y).rest)) == Ok(r, x)
    ensures StartGroupLine(s) == Ok(r, x)
  {
  }

  lemma SitemapFieldFromParts(ext: Externals, t: string, k: string, u: string, y: string, v: string, w: string)
    requires UrlNonGroupField(t) == Ok(k, u) && Colon(u) == Ok(":", y) && ext.absoluteUrl(y) == Ok(v, w)
    ensures SitemapField(ext, t) == Ok((Sitemap, v), w)
  {
  }

  lemma NonGroupLineFromSitemap(ext: Externals, s: string, t: string, v: string, w: string, r: Record, x: string)
    requires OptLws(s) == t && SitemapField(ext, t) == Ok((Sitemap, v), w) && |w| <= |s|
    requires FinishLine(s, Ok((Sitemap, v), w)) == Ok(r, x)
    ensures NonGroupLine(ext, s) == Ok(r, x)
  {
  }

  /**
   nongroupline on `[blanks] sitemap [blanks] ":" [blanks] url [blanks] [#comment] EOL`,
   where the absolute-URL rule reads exactly `url`, yields a Sitemap record
   with that URL and the trimmed comment, and leaves the text after the line
   ending. An absolute URL begins with its scheme, so `url` begins with
   neither a blank nor a line ending.
   */
  lemma SitemapLineReads(ext: Externals, p: LineParts, x: string)
    requires WellSpaced(p, x) && p.name in SitemapSpellings
    requires StartsValue(p.value)
    requires ext.absoluteUrl(p.value + AfterValue(p, x)) == Ok(p.value, AfterValue(p, x))
    ensures NonGroupLine(ext, LineText(p, x)) == Ok(LineRecord(Sitemap, p), x)
  {
    var s := LineText(p, x);
    var u := AfterName(p, x);
    var y := p.value + AfterValue(p, x);
    NameAfterLead(p, x);
    UrlNonGroupFieldReads(p.name, u);
    assert y[0] == p.value[0];
    ValueStartIsNoLws(y);
    ColonOfLine(p, x);
    SitemapFieldFromParts(ext, p.name + u, p.name, u, y, p.value, AfterValue(p, x));
    EndOfLine(s, Sitemap, p, x);
    NonGroupLineFromSitemap(ext, s, p.name + u, p.value, AfterValue(p, x), LineRecord(Sitemap, p), x);
  }

  /** The tag of a path keyword: Allow for `allow` and `Allow`, Disallow for the other two. */
  function PathTag(k: string): Field {
    if k == "allow" || k == "Allow" then Allow else Disallow
  }

  lemma PathDirectiveFromParts(ext: Externals, t: string, k: string, u: string, y: string, v: string, w: string)
    requires PathMemberField(t) == Ok(k, u) && k in PathMemberSpellings
    requires Colon(u) == Ok(":", y) && PathValue(ext, y) == Ok(v, w)
    ensures PathMemberDirective(ext, t) == Ok((PathTag(k), v), w)
  {
    LowerPathKeyword(k);
  }

  lemma MemberLineFromPath(ext: Externals, s: string, t: string, f: Field, v: string, w: string, r: Record, x: string)
    requires OptLws(s) == t && PathMemberDirective(ext, t) == Ok((f, v), w) && |w| <= |s|
    requires FinishLine(s, Ok((f, v), w)) == Ok(r, x)
    ensures GroupMemberLine(ext, s) == Ok(r, x)
  {
  }

  /**
   groupmemberline on `[blanks] allow [blanks] ":" [blanks] /path [blanks] [#comment] EOL`
   (or disallow, in any listed spelling), where the URL path rule reads
   exactly the text after the slash, yields an Allow or Disallow record as
   the keyword says, with that path and the trimmed comment, and leaves the
   text after the line ending.
   */
  lemma PathLineReads(ext: Externals, p: LineParts, x: string)
    requires WellSpaced(p, x) && p.name in PathMemberSpellings
    requires |p.value| > 0 && p.value[0] == '/'
    requires ext.path(p.value[1..] + AfterValue(p, x)) == Ok(p.value[1..], AfterValue(p, x))
    ensures GroupMemberLine(ext, LineText(p, x)) == Ok(LineRecord(PathTag(p.name), p), x)
  {
    var s := LineText(p, x);
    var u := AfterName(p, x);
    var y := p.value + AfterValue(p, x);
    NameAfterLead(p, x);
    PathMemberFieldReads(p.name, u);
    assert y[0] == p.value[0];
    assert StartsValue(y);
    ValueStartIsNoLws(y);
    ColonOfLine(p, x);
    PathValueOf(ext, p.value, AfterValue(p, x));
    PathDirectiveFromParts(ext, p.name + u, p.name, u, y, p.value, AfterValue(p, x));
    EndOfLine(s, PathTag(p.name), p, x);
    MemberLineFromPath(ext, s, p.name + u, PathTag(p.name), p.value, AfterValue(p, x), LineRecord(PathTag(p.name), p), x);
  }

  /** The empty field name: what follows the leading blanks is the colon. */
  lemma ColonAfterLead(p: LineParts, x: string)
    requires IsBlanks(p.lead) && p.name == "" && p.gap == ""
    ensures var t := ":" + (p.space + (p.value + AfterValue(p, x)));
      && LineText(p, x) == p.lead + t
      && OptLws(LineText(p, x)) == t
  {
    var t := ":" + (p.space + (p.value + AfterValue(p, x)));
    assert LineText(p, x) == p.lead + t;
    assert Lws(t).Fail?;
    OptLwsSkips(p.lead, t);
  }

  lemma OtherFieldFromParts(f: Field, t: string, y: string, v: string, w: string)
    requires Colon(t) == Ok(":", y) && TextValue(y) == Ok(v, w)
    ensures OtherField(f, t) == Ok((f, v), w)
  {
  }

  /**
   The empty-name line `[blanks] ":" [blanks] value [tabs] [#comment] EOL`
   is, as a group-member line, an OtherMemberField record and, as a
   non-group line, an OtherNonGroupField record, each with the text value and
   the trimmed comment, and each leaves the text after the line ending.
   */
  lemma EmptyNameLineReads(ext: Externals, p: LineParts, x: string)
    requires WellSpaced(p, x) && TextValued(p)
    requires p.name == "" && p.gap == ""
    ensures GroupMemberLine(ext, LineText(p, x)) == Ok(LineRecord(OtherMemberField, p), x)
    ensures NonGroupLine(ext, LineText(p, x)) == Ok(LineRecord(OtherNonGroupField, p), x)
  {
    var s := LineText(p, x);
    var t := ":" + (p.space + (p.value + AfterValue(p, x)));
    var y := p.value + AfterValue(p, x);
    ColonAfterLead(p, x);
    TextValueOfLine(p, x);
    assert Colon(t) == Ok(":", y) by {
      assert "" + t == t;
      ColonReads("", p.space, y);
    }
    OtherFieldFromParts(OtherMemberField, t, y, p.value, AfterValue(p, x));
    OtherFieldFromParts(OtherNonGroupField, t, y, p.value, AfterValue(p, x));
    EmptyNameLines(ext, s);
    EndOfLine(s, OtherMemberField, p, x);
    EndOfLine(s, OtherNonGroupField, p, x);
  }
}
