/**
 The line grammars of robots.txt (src/parsers.js, lines 62-132): the comment
 rule and the three directive lines. Every directive line is
   [LWS] field [LWS] ":" [LWS] value [comment] EOL
 and yields one directive record.
 */
module Lines {
  import opened Combinators
  import opened Chars
  import opened Lexical
  import opened Records

  /**
   The line grammar consumed a non-empty prefix of `s`, leaving `rest`, and
   that prefix ends in a line ending.
   */
  predicate LineConsumed(s: string, rest: string) {
    IsSuffix(rest, s) && |rest| < |s| && IsEolChar(s[|s| - |rest| - 1])
  }

  lemma EndsInEol(s: string, v: string, e: string, w: string)
    requires IsSuffix(v, s) && v == e + w && IsEolText(e)
    ensures LineConsumed(s, w)
  {
    SuffixOfConcat(e, w);
    SuffixTransitive(w, v, s);
    assert s[|s| - |w| - 1] == v[|v| - |w| - 1];
  }

  /**
   comment: optional LWS, `#`, then any characters but control characters,
   trimmed. It fails without the `#`, and it stops at a control character or
   a line ending without consuming it.
   */
  function CommentText(s: string): (r: Reply<string>)
    ensures r.Ok? <==> var t := OptLws(s); |t| > 0 && t[0] == '#'
    ensures r.Ok? ==> |r.rest| < |s|
    ensures r.Ok? ==> |r.rest| == 0 || !IsAnychar(r.rest[0])
    ensures r.Ok? ==> IsCommentText(r.value)
  {
    var t := OptLws(s);
    match Literal("#", t)
    case Fail => Fail
    case Ok(_, body) =>
      var run := Span(IsAnychar, body);
      TrimmedRunIsCommentText(run.value);
      Ok(Trim(run.value), run.rest)
  }

  lemma TrimmedRunIsCommentText(run: string)
    requires forall i :: 0 <= i < |run| ==> IsAnychar(run[i])
    ensures IsCommentText(Trim(run))
  {
    var c := Trim(run);
    forall i | 0 <= i < |c|
      ensures IsAnychar(c[i])
    {
      assert c[i] in c;
    }
  }

  /** `p.maybe(comment)`: the trailing comment of a line, if there is one. */
  function MaybeComment(s: string): (r: Reply<Option<string>>)
    ensures r.Ok? && |r.rest| <= |s|
    ensures r.value.Some? <==> CommentText(s).Ok?
    ensures r.value.Some? ==> CommentText(s) == Ok(r.value.value, r.rest)
    ensures r.value.None? ==> r.rest == s
    ensures IsCommentField(r.value)
  {
    match CommentText(s)
    case Ok(c, rest) => Ok(Some(c), rest)
    case Fail => Ok(None, s)
  }

  /** `[LWS] ":" [LWS]`, between a field name and its value. */
  function Colon(s: string): (r: Reply<string>)
    ensures r.Ok? <==> var t := OptLws(s); |t| > 0 && t[0] == ':'
    ensures r.Ok? ==> |r.rest| < |s|
  {
    var t := OptLws(s);
    match Literal(":", t)
    case Fail => Fail
    case Ok(colon, u) =>
      Ok(colon, OptLws(u))
  }

  /** `urlnongroupfield [LWS] ":" [LWS] urlvalue` */
  function SitemapField(ext: Externals, s: string): (r: Reply<(Field, string)>)
    ensures r.Ok? ==> |r.rest| <= |s|
    ensures r.Ok? ==> r.value.0 == Sitemap
  {
    match UrlNonGroupField(s)
    case Fail => Fail
    case Ok(name, u) =>
      match Colon(u)
      case Fail => Fail
      case Ok(_, v) =>
        match UrlValue(ext, v)
        case Fail => Fail
        case Ok(url, w) =>
          Ok((Sitemap, url), w)
  }

  /** `pathmemberfield [LWS] ":" [LWS] pathvalue`, tagged with the lower-cased keyword. */
  function PathMemberDirective(ext: Externals, s: string): (r: Reply<(Field, string)>)
    ensures r.Ok? ==> |r.rest| <= |s|
    ensures r.Ok? ==> r.value.0 in {Allow, Disallow}
    ensures r.Ok? ==> |r.value.1| > 0 && r.value.1[0] == '/'
  {
    match PathMemberField(s)
    case Fail => Fail
    case Ok(name, u) =>
      var field := Lower(name);
      match Colon(u)
      case Fail => Fail
      case Ok(_, v) =>
        match PathValue(ext, v)
        case Fail => Fail
        case Ok(path, w) =>
          Ok((if field == "allow" then Allow else Disallow, path), w)
  }

  /** `othermemberfield` / `othernongroupfield` `[LWS] ":" [LWS] textvalue`: the empty field name. */
  function OtherField(field: Field, s: string): (r: Reply<(Field, string)>)
    ensures r.Ok? ==> |r.rest| <= |s|
    ensures r.Ok? ==> r.value.0 == field && IsTextValue(r.value.1)
  {
    match EmptyField(s)
    case Fail => Fail
    case Ok(_, u) =>
      match Colon(u)
      case Fail => Fail
      case Ok(_, v) =>
        var text := TextValue(v);
        Ok((field, text.value), text.rest)
  }

  /** `[comment] EOL` after the field and value of a line that began at `s`. */
  function FinishLine(s: string, line: Reply<(Field, string)>): (r: Reply<Record>)
    requires line.Ok? ==> |line.rest| <= |s|
    ensures r.Ok? ==> line.Ok? && |r.rest| < |s|
    ensures r.Ok? ==> r.value.Directive? && r.value.field == line.value.0 && r.value.value == line.value.1
    ensures r.Ok? ==> IsCommentField(r.value.comment)
  {
    match line
    case Fail => Fail
    case Ok((field, value), u) =>
      match MaybeComment(u)
      case Fail => Fail
      case Ok(comment, v) =>
        match Eol(v)
        case Fail => Fail
        case Ok(e, w) =>
          Ok(Directive(field, value, comment), w)
  }

  /**
   nongroupline: `sitemap` with an absolute URL, or else the empty field name
   with a text value; the choice is made before the trailing comment and the
   line ending, so a line that fails after a `sitemap` keyword fails outright.
   */
  function NonGroupLine(ext: Externals, s: string): (r: Reply<Record>)
    ensures r.Ok? ==> |r.rest| < |s|
    ensures r.Ok? ==> r.value.Directive? && r.value.field in {Sitemap, OtherNonGroupField}
    ensures r.Ok? && r.value.field == OtherNonGroupField ==> IsTextValue(r.value.value)
    ensures r.Ok? ==> IsCommentField(r.value.comment)
  {
    var t := OptLws(s);
    var line := Or(SitemapField(ext, t), OtherField(OtherNonGroupField, t));
    FinishLine(s, line)
  }

  /**
   groupmemberline: `allow`/`disallow` with a path value, or else the empty
   field name with a text value.
   */
  function GroupMemberLine(ext: Externals, s: string): (r: Reply<Record>)
    ensures r.Ok? ==> |r.rest| < |s|
    ensures r.Ok? ==> r.value.Directive? && r.value.field in {Allow, Disallow, OtherMemberField}
    ensures r.Ok? && r.value.field in {Allow, Disallow} ==> |r.value.value| > 0 && r.value.value[0] == '/'
    ensures r.Ok? && r.value.field == OtherMemberField ==> IsTextValue(r.value.value)
    ensures r.Ok? ==> IsCommentField(r.value.comment)
  {
    var t := OptLws(s);
    var line := Or(PathMemberDirective(ext, t), OtherField(OtherMemberField, t));
    FinishLine(s, line)
  }

  /** startgroupline: `user-agent`, then the agent value. */
  function StartGroupLine(s: string): (r: Reply<Record>)
    ensures r.Ok? ==> |r.rest| < |s|
    ensures r.Ok? ==> IsUserAgent(r.value) && IsTextValue(r.value.value)
    ensures r.Ok? ==> IsCommentField(r.value.comment)
  {
    var t := OptLws(s);
    match UserAgentField(t)
    case Fail => Fail
    case Ok(name, u) =>
      match Colon(u)
      case Fail => Fail
      case Ok(_, v) =>
        var agent := AgentValue(v);
        FinishLine(s, Ok((UserAgent, agent.value), agent.rest))
  }

  // ---------------------------------------------------------------------
  // Each rule consumes a prefix of its input, and a line ends in EOL.

  lemma OptLwsSuffix(s: string)
    ensures IsSuffix(OptLws(s), s)
  {
    if Lws(s).Ok? {
      SuffixOfConcat(Lws(s).value, Lws(s).rest);
    }
  }

  lemma ColonSuffix(s: string)
    ensures Consumes(Colon(s), s)
  {
    var t := OptLws(s);
    OptLwsSuffix(s);
    if Literal(":", t).Ok? {
      var u := Literal(":", t).rest;
      SuffixOfConcat(":", u);
      OptLwsSuffix(u);
      SuffixTransitive(OptLws(u), u, t);
      SuffixTransitive(OptLws(u), t, s);
    }
  }

  lemma CommentSuffix(s: string)
    ensures Consumes(CommentText(s), s)
    ensures Consumes(MaybeComment(s), s)
  {
    var t := OptLws(s);
    OptLwsSuffix(s);
    if Literal("#", t).Ok? {
      var body := Literal("#", t).rest;
      var run := Span(IsAnychar, body);
      SuffixOfConcat("#", body);
      SuffixOfConcat(run.value, run.rest);
      SuffixTransitive(run.rest, body, t);
      SuffixTransitive(run.rest, t, s);
    }
  }

  lemma SitemapFieldSuffix(ext: Externals, s: string)
    ensures Consumes(SitemapField(ext, s), s)
  {
    var name := UrlNonGroupField(s);
    if name.Ok? {
      SuffixOfConcat(name.value, name.rest);
      ColonSuffix(name.rest);
      var colon := Colon(name.rest);
      if colon.Ok? {
        SuffixTransitive(colon.rest, name.rest, s);
        ConsumesThrough(UrlValue(ext, colon.rest), colon.rest, s);
      }
    }
  }

  lemma PathMemberDirectiveSuffix(ext: Externals, s: string)
    ensures Consumes(PathMemberDirective(ext, s), s)
  {
    var name := PathMemberField(s);
    if name.Ok? {
      SuffixOfConcat(name.value, name.rest);
      ColonSuffix(name.rest);
      var colon := Colon(name.rest);
      if colon.Ok? {
        SuffixTransitive(colon.rest, name.rest, s);
        ConsumesThrough(PathValue(ext, colon.rest), colon.rest, s);
      }
    }
  }

  lemma OtherFieldSuffix(field: Field, s: string)
    ensures Consumes(OtherField(field, s), s)
  {
    var colon := Colon(s);
    if colon.Ok? {
      var text := TextValue(colon.rest);
      assert IsSuffix(text.rest, s) by {
        ColonSuffix(s);
        SuffixOfConcat(text.value, text.rest);
        SuffixTransitive(text.rest, colon.rest, s);
      }
    }
  }

  lemma FinishLineEndsInEol(s: string, line: Reply<(Field, string)>)
    requires Consumes(line, s)
    ensures var r := FinishLine(s, line); r.Ok? ==> LineConsumed(s, r.rest)
  {
    if line.Ok? {
      var u := line.rest;
      CommentSuffix(u);
      var c := MaybeComment(u);
      var e := Eol(c.rest);
      if e.Ok? {
        SuffixTransitive(c.rest, u, s);
        EndsInEol(s, c.rest, e.value, e.rest);
      }
    }
  }

  /** A non-group line matches only up to and including a line ending. */
  lemma NonGroupLineEndsInEol(ext: Externals, s: string)
    ensures var r := NonGroupLine(ext, s); r.Ok? ==> LineConsumed(s, r.rest)
  {
    var t := OptLws(s);
    OptLwsSuffix(s);
    SitemapFieldSuffix(ext, t);
    OtherFieldSuffix(OtherNonGroupField, t);
    var line := Or(SitemapField(ext, t), OtherField(OtherNonGroupField, t));
    ConsumesThrough(line, t, s);
    FinishLineEndsInEol(s, line);
  }

  /** A group-member line matches only up to and including a line ending. */
  lemma GroupMemberLineEndsInEol(ext: Externals, s: string)
    ensures var r := GroupMemberLine(ext, s); r.Ok? ==> LineConsumed(s, r.rest)
  {
    var t := OptLws(s);
    OptLwsSuffix(s);
    PathMemberDirectiveSuffix(ext, t);
    OtherFieldSuffix(OtherMemberField, t);
    var line := Or(PathMemberDirective(ext, t), OtherField(OtherMemberField, t));
    ConsumesThrough(line, t, s);
    FinishLineEndsInEol(s, line);
  }

  /** A start-of-group line matches only up to and including a line ending. */
  lemma StartGroupLineEndsInEol(s: string)
    ensures var r := StartGroupLine(s); r.Ok? ==> LineConsumed(s, r.rest)
  {
    var t := OptLws(s);
    OptLwsSuffix(s);
    var name := UserAgentField(t);
    if name.Ok? {
      SuffixOfConcat(name.value, name.rest);
      SuffixTransitive(name.rest, t, s);
      ColonSuffix(name.rest);
      var colon := Colon(name.rest);
      if colon.Ok? {
        SuffixTransitive(colon.rest, name.rest, s);
        var agent := AgentValue(colon.rest);
        SuffixOfConcat(agent.value, agent.rest);
        SuffixTransitive(agent.rest, colon.rest, s);
        FinishLineEndsInEol(s, Ok((UserAgent, agent.value), agent.rest));
      }
    }
  }

  // ---------------------------------------------------------------------
  // Which line a text can be: the first character after the optional
  // leading LWS decides between the keywords, `:` and `#`.

  lemma NoSpellingStartsWith(spellings: seq<string>, s: string)
    requires |s| > 0 && forall k :: k in spellings ==> |k| > 0 && k[0] != s[0]
    ensures FirstOf(spellings, s).Fail?
  {
  }

  lemma OptLwsAtNonBlank(t: string)
    requires |t| > 0 && !IsBlank(t[0]) && !IsEolChar(t[0])
    ensures OptLws(t) == t
  {
  }

  /** A field position that starts with a letter is no empty field name. */
  lemma NoColonAtLetter(t: string)
    requires |t| > 0 && 'A' <= t[0] <= 'z'
    ensures Colon(t).Fail?
    ensures OtherField(OtherMemberField, t).Fail? && OtherField(OtherNonGroupField, t).Fail?
  {
    OptLwsAtNonBlank(t);
  }

  /**
   The "other" fields match the EMPTY field name: a line becomes an
   OtherMemberField or OtherNonGroupField only when what follows the leading
   LWS is, directly, `[LWS] ":"`.
   */
  lemma OtherFieldsHaveEmptyName(ext: Externals, s: string)
    ensures var r := GroupMemberLine(ext, s);
      r.Ok? && r.value.field == OtherMemberField ==> Colon(OptLws(s)).Ok?
    ensures var r := NonGroupLine(ext, s);
      r.Ok? && r.value.field == OtherNonGroupField ==> Colon(OptLws(s)).Ok?
  {
    MemberOtherIsEmptyName(ext, s);
    NonGroupOtherIsEmptyName(ext, s);
    OtherFieldRetag(OptLws(s));
  }

  /** Where `allow`/`disallow` matches, the field position starts with a letter. */
  lemma PathKeywordLead(t: string)
    requires PathMemberField(t).Ok?
    ensures |t| > 0 && 'A' <= t[0] <= 'z'
  {
    var k := PathMemberField(t).value;
    assert k + PathMemberField(t).rest == t;
    assert k in PathMemberSpellings;
    assert k[0] == t[0];
  }

  /** Where `sitemap` matches, the field position starts with a letter. */
  lemma SitemapKeywordLead(t: string)
    requires UrlNonGroupField(t).Ok?
    ensures |t| > 0 && 'A' <= t[0] <= 'z'
  {
    var k := UrlNonGroupField(t).value;
    assert k + UrlNonGroupField(t).rest == t;
    assert k in SitemapSpellings;
    assert k[0] == t[0];
  }

  /**
   Once `allow`/`disallow` matches at the field position, the line is an
   Allow or Disallow record or nothing: an invalid value does not fall back
   to the "other" field.
   */
  lemma PathKeywordCommits(ext: Externals, s: string)
    requires PathMemberField(OptLws(s)).Ok?
    ensures var r := GroupMemberLine(ext, s); r.Fail? || r.value.field in {Allow, Disallow}
  {
    var t := OptLws(s);
    assert OtherField(OtherMemberField, t).Fail? by {
      PathKeywordLead(t);
      NoColonAtLetter(t);
    }
  }

  /** Once `sitemap` matches at the field position, the line is a Sitemap record or nothing. */
  lemma SitemapKeywordCommits(ext: Externals, s: string)
    requires UrlNonGroupField(OptLws(s)).Ok?
    ensures var r := NonGroupLine(ext, s); r.Fail? || r.value.field == Sitemap
  {
    var t := OptLws(s);
    assert OtherField(OtherNonGroupField, t).Fail? by {
      SitemapKeywordLead(t);
      NoColonAtLetter(t);
    }
  }

  lemma StartGroupLineLead(s: string)
    requires StartGroupLine(s).Ok?
    ensures var t := OptLws(s); |t| > 0 && (t[0] == 'u' || t[0] == 'U')
  {
    var t := OptLws(s);
    var name := UserAgentField(t);
    assert name.Ok?;
    assert name.value + name.rest == t;
    assert name.value[0] == t[0];
  }

  /** A member line needs its keyword or the empty field name. */
  lemma MemberLineFails(ext: Externals, s: string)
    requires PathMemberField(OptLws(s)).Fail? && OtherField(OtherMemberField, OptLws(s)).Fail?
    ensures GroupMemberLine(ext, s).Fail?
  {
  }

  /** A non-group line needs its keyword or the empty field name. */
  lemma NonGroupLineFails(ext: Externals, s: string)
    requires UrlNonGroupField(OptLws(s)).Fail? && OtherField(OtherNonGroupField, OptLws(s)).Fail?
    ensures NonGroupLine(ext, s).Fail?
  {
  }

  lemma AgentLeadIsNoKeyword(t: string)
    requires |t| > 0 && (t[0] == 'u' || t[0] == 'U')
    ensures PathMemberField(t).Fail? && UrlNonGroupField(t).Fail?
    ensures OtherField(OtherMemberField, t).Fail? && OtherField(OtherNonGroupField, t).Fail?
  {
    assert PathMemberField(t).Fail? by {
      NoSpellingStartsWith(PathMemberSpellings, t);
    }
    assert UrlNonGroupField(t).Fail? by {
      NoSpellingStartsWith(SitemapSpellings, t);
    }
    NoColonAtLetter(t);
  }

  lemma AgentLeadIsNoMember(ext: Externals, s: string)
    requires var t := OptLws(s); |t| > 0 && (t[0] == 'u' || t[0] == 'U')
    ensures GroupMemberLine(ext, s).Fail?
  {
    AgentLeadIsNoKeyword(OptLws(s));
    MemberLineFails(ext, s);
  }

  lemma AgentLeadIsNoNonGroupLine(ext: Externals, s: string)
    requires var t := OptLws(s); |t| > 0 && (t[0] == 'u' || t[0] == 'U')
    ensures NonGroupLine(ext, s).Fail?
  {
    AgentLeadIsNoKeyword(OptLws(s));
    NonGroupLineFails(ext, s);
  }

  /**
   A start-of-group line is no other kind of line: where `user-agent`
   matches, the member, non-group and comment rules all fail.
   */
  lemma StartGroupLineExcludes(ext: Externals, s: string)
    requires StartGroupLine(s).Ok?
    ensures GroupMemberLine(ext, s).Fail?
    ensures NonGroupLine(ext, s).Fail?
    ensures CommentText(s).Fail?
  {
    StartGroupLineLead(s);
    AgentLeadIsNoMember(ext, s);
    AgentLeadIsNoNonGroupLine(ext, s);
  }

  lemma NoAgentAt(s: string)
    requires OptLws(s) == s && |s| > 0 && s[0] !in {'u', 'U'}
    ensures StartGroupLine(s).Fail?
  {
    NoSpellingStartsWith(UserAgentSpellings, s);
  }

  lemma NoMemberAt(ext: Externals, s: string)
    requires OptLws(s) == s && |s| > 0 && s[0] !in {':', 'a', 'A', 'd', 'D'}
    ensures GroupMemberLine(ext, s).Fail?
  {
    assert PathMemberField(s).Fail? by {
      NoSpellingStartsWith(PathMemberSpellings, s);
    }
    assert Colon(s).Fail?;
  }

  lemma NoNonGroupAt(ext: Externals, s: string)
    requires OptLws(s) == s && |s| > 0 && s[0] !in {':', 's', 'S'}
    ensures NonGroupLine(ext, s).Fail?
  {
    assert UrlNonGroupField(s).Fail? by {
      NoSpellingStartsWith(SitemapSpellings, s);
    }
    assert Colon(s).Fail?;
  }

  /** Where the field position holds no keyword letter and no `:`, no directive line starts. */
  lemma NoDirectiveAt(ext: Externals, s: string)
    requires OptLws(s) == s && |s| > 0
    requires s[0] !in {':', 'u', 'U', 'a', 'A', 'd', 'D', 's', 'S'}
    ensures StartGroupLine(s).Fail?
    ensures GroupMemberLine(ext, s).Fail?
    ensures NonGroupLine(ext, s).Fail?
  {
    NoAgentAt(s);
    NoMemberAt(ext, s);
    NoNonGroupAt(ext, s);
  }

  /** Every line grammar needs a line ending: on text without CR or LF, all of them fail. */
  lemma NoLineWithoutEol(ext: Externals, s: string)
    requires forall i :: 0 <= i < |s| ==> !IsEolChar(s[i])
    ensures StartGroupLine(s).Fail?
    ensures GroupMemberLine(ext, s).Fail?
    ensures NonGroupLine(ext, s).Fail?
  {
    StartGroupLineEndsInEol(s);
    GroupMemberLineEndsInEol(ext, s);
    NonGroupLineEndsInEol(ext, s);
  }

  /** Where `[LWS] ":"` matches, the field position holds `:`, a blank or a line ending. */
  lemma ColonLead(t: string)
    requires Colon(t).Ok?
    ensures |t| > 0 && t[0] in {':', ' ', '\t', '\r', '\n'}
  {
  }

  /** ... and so no keyword starts there. */
  lemma ColonLeadIsNoKeyword(t: string)
    requires |t| > 0 && t[0] in {':', ' ', '\t', '\r', '\n'}
    ensures PathMemberField(t).Fail? && UrlNonGroupField(t).Fail?
  {
    NoSpellingStartsWith(PathMemberSpellings, t);
    NoSpellingStartsWith(SitemapSpellings, t);
  }

  /** `[comment] EOL` reads the same whatever the field tag. */
  lemma FinishLineRetag(s: string, a: Reply<(Field, string)>, b: Reply<(Field, string)>)
    requires a.Ok? && b.Ok? && a.rest == b.rest && a.value.1 == b.value.1 && |a.rest| <= |s|
    ensures FinishLine(s, a).Ok? <==> FinishLine(s, b).Ok?
    ensures FinishLine(s, a).Ok? ==>
      && FinishLine(s, a).rest == FinishLine(s, b).rest
      && FinishLine(s, a).value.value == FinishLine(s, b).value.value
      && FinishLine(s, a).value.comment == FinishLine(s, b).value.comment
  {
  }

  /** An empty-name field reads the same text whatever its tag. */
  lemma OtherFieldRetag(t: string)
    ensures var om := OtherField(OtherMemberField, t); var on := OtherField(OtherNonGroupField, t);
      && (om.Ok? <==> on.Ok?)
      && (om.Ok? ==> om.rest == on.rest && om.value.1 == on.value.1 && Colon(t).Ok?)
  {
  }

  /** Where an empty-name field matches, the keyword alternatives cannot. */
  lemma ColonLeadHasNoKeyword(ext: Externals, t: string)
    requires Colon(t).Ok?
    ensures PathMemberDirective(ext, t).Fail?
    ensures SitemapField(ext, t).Fail?
  {
    ColonLead(t);
    ColonLeadIsNoKeyword(t);
  }

  /** An OtherMemberField line comes from the empty-name alternative. */
  lemma MemberOtherIsEmptyName(ext: Externals, s: string)
    ensures var g := GroupMemberLine(ext, s);
      g.Ok? && g.value.field == OtherMemberField ==>
        OtherField(OtherMemberField, OptLws(s)).Ok? &&
        g == FinishLine(s, OtherField(OtherMemberField, OptLws(s)))
  {
    var t := OptLws(s);
    if PathMemberDirective(ext, t).Ok? {
      assert GroupMemberLine(ext, s) == FinishLine(s, PathMemberDirective(ext, t));
    }
  }

  /** An OtherNonGroupField line comes from the empty-name alternative. */
  lemma NonGroupOtherIsEmptyName(ext: Externals, s: string)
    ensures var n := NonGroupLine(ext, s);
      n.Ok? && n.value.field == OtherNonGroupField ==>
        OtherField(OtherNonGroupField, OptLws(s)).Ok? &&
        n == FinishLine(s, OtherField(OtherNonGroupField, OptLws(s)))
  {
  }

  /** Where the empty-name field matches, both line rules take that alternative. */
  lemma EmptyNameLines(ext: Externals, s: string)
    requires OtherField(OtherMemberField, OptLws(s)).Ok?
    ensures GroupMemberLine(ext, s) == FinishLine(s, OtherField(OtherMemberField, OptLws(s)))
    ensures NonGroupLine(ext, s) == FinishLine(s, OtherField(OtherNonGroupField, OptLws(s)))
  {
    var t := OptLws(s);
    OtherFieldRetag(t);
    ColonLeadHasNoKeyword(ext, t);
  }

  /**
   The two empty-name fields read the same lines: a line is an
   OtherMemberField exactly when it is an OtherNonGroupField, with the same
   value, comment and remaining input. Inside a group the member rule is
   tried first, so there such a line is always an OtherMemberField.
   */
  lemma OtherLinesAgree(ext: Externals, s: string)
    ensures var g := GroupMemberLine(ext, s); var n := NonGroupLine(ext, s);
      (g.Ok? && g.value.field == OtherMemberField) <==> (n.Ok? && n.value.field == OtherNonGroupField)
    ensures var g := GroupMemberLine(ext, s); var n := NonGroupLine(ext, s);
      g.Ok? && g.value.field == OtherMemberField ==>
        g.rest == n.rest && g.value.value == n.value.value && g.value.comment == n.value.comment
  {
    var t := OptLws(s);
    var om := OtherField(OtherMemberField, t);
    var on := OtherField(OtherNonGroupField, t);
    MemberOtherIsEmptyName(ext, s);
    NonGroupOtherIsEmptyName(ext, s);
    OtherFieldRetag(t);
    if om.Ok? {
      EmptyNameLines(ext, s);
      FinishLineRetag(s, om, on);
    }
  }

  /** `toLowerCase` on the four spellings of the path keywords. */
  lemma LowerPathSpellings()
    ensures Lower("allow") == "allow" && Lower("Allow") == "allow"
    ensures Lower("disallow") == "disallow" && Lower("Disallow") == "disallow"
  {
  }

  /** The tag of a path directive is decided by its lower-cased keyword. */
  lemma PathDirectiveTag(ext: Externals, s: string)
    ensures var r := PathMemberDirective(ext, s);
      r.Ok? ==> PathMemberField(s).Ok? && (r.value.0 == Allow <==> Lower(PathMemberField(s).value) == "allow")
  {
  }

  /** The lower-cased keyword is `allow` exactly for the spellings `allow` and `Allow`. */
  lemma KeywordTag(s: string)
    requires PathMemberField(s).Ok?
    ensures Lower(PathMemberField(s).value) == "allow" <==> ("allow" <= s || "Allow" <= s)
  {
    var name := PathMemberField(s).value;
    LowerPathSpellings();
    assert name + PathMemberField(s).rest == s;
    assert name in PathMemberSpellings;
    if name == "disallow" || name == "Disallow" {
      assert s[0] == name[0];
    }
  }

  /**
   The tag of a path directive follows its keyword: Allow exactly when the
   field position starts with `allow` or `Allow`, Disallow otherwise.
   */
  lemma PathTagFollowsKeyword(ext: Externals, s: string)
    ensures var r := PathMemberDirective(ext, s);
      r.Ok? ==> (r.value.0 == Allow <==> ("allow" <= s || "Allow" <= s))
  {
    PathDirectiveTag(ext, s);
    if PathMemberDirective(ext, s).Ok? {
      KeywordTag(s);
    }
  }

  /** Two path keywords with the same lower-case form, followed by the same text, read alike. */
  lemma PathDirectiveByName(ext: Externals, s1: string, s2: string)
    requires PathMemberField(s1).Ok? && PathMemberField(s2).Ok?
    requires PathMemberField(s1).rest == PathMemberField(s2).rest
    requires Lower(PathMemberField(s1).value) == Lower(PathMemberField(s2).value)
    ensures PathMemberDirective(ext, s1) == PathMemberDirective(ext, s2)
  {
  }

  /** `[comment] EOL` does not depend on where the line began. */
  lemma FinishLineFrom(s1: string, s2: string, line: Reply<(Field, string)>)
    requires line.Ok? ==> |line.rest| <= |s1| && |line.rest| <= |s2|
    ensures FinishLine(s1, line) == FinishLine(s2, line)
  {
  }

  /** A member line that opens with a letter is a path directive or nothing. */
  lemma LetterLeadMemberLine(ext: Externals, s: string)
    requires |s| > 0 && 'A' <= s[0] <= 'z'
    ensures GroupMemberLine(ext, s) == FinishLine(s, PathMemberDirective(ext, s))
  {
    assert OptLws(s) == s by {
      OptLwsAtNonBlank(s);
    }
    assert OtherField(OtherMemberField, s).Fail? by {
      NoColonAtLetter(s);
    }
  }

  /** Lines that open with a letter and read the same path directive are the same member line. */
  lemma MemberLineByDirective(ext: Externals, s1: string, s2: string)
    requires |s1| > 0 && 'A' <= s1[0] <= 'z' && |s2| > 0 && 'A' <= s2[0] <= 'z'
    requires PathMemberDirective(ext, s1) == PathMemberDirective(ext, s2)
    ensures GroupMemberLine(ext, s1) == GroupMemberLine(ext, s2)
  {
    LetterLeadMemberLine(ext, s1);
    LetterLeadMemberLine(ext, s2);
    FinishLineFrom(s1, s2, PathMemberDirective(ext, s1));
  }

  /** `Allow` and `allow` read a line alike. */
  lemma CapitalAllowAgrees(ext: Externals, x: string)
    ensures GroupMemberLine(ext, "Allow" + x) == GroupMemberLine(ext, "allow" + x)
  {
    var s1, s2 := "Allow" + x, "allow" + x;
    PrefixOfConcat("Allow", x);
    PrefixOfConcat("allow", x);
    FirstOfPicksByLead(PathMemberSpellings, s1, 3);
    FirstOfPicksByLead(PathMemberSpellings, s2, 1);
    LowerPathSpellings();
    PathDirectiveByName(ext, s1, s2);
    MemberLineByDirective(ext, s1, s2);
  }

  /** `Disallow` and `disallow` read a line alike. */
  lemma CapitalDisallowAgrees(ext: Externals, x: string)
    ensures GroupMemberLine(ext, "Disallow" + x) == GroupMemberLine(ext, "disallow" + x)
  {
    var s1, s2 := "Disallow" + x, "disallow" + x;
    PrefixOfConcat("Disallow", x);
    PrefixOfConcat("disallow", x);
    FirstOfPicksByLead(PathMemberSpellings, s1, 2);
    FirstOfPicksByLead(PathMemberSpellings, s2, 0);
    LowerPathSpellings();
    PathDirectiveByName(ext, s1, s2);
    MemberLineByDirective(ext, s1, s2);
  }

  /** A non-group line that opens with a letter is a sitemap line or nothing. */
  lemma LetterLeadNonGroupLine(ext: Externals, s: string)
    requires |s| > 0 && 'A' <= s[0] <= 'z'
    ensures NonGroupLine(ext, s) == FinishLine(s, SitemapField(ext, s))
  {
    assert OptLws(s) == s by {
      OptLwsAtNonBlank(s);
    }
    assert OtherField(OtherNonGroupField, s).Fail? by {
      NoColonAtLetter(s);
    }
  }

  /** Two sitemap keywords followed by the same text read alike. */
  lemma NonGroupLineByName(ext: Externals, s1: string, s2: string)
    requires |s1| > 0 && 'A' <= s1[0] <= 'z' && |s2| > 0 && 'A' <= s2[0] <= 'z'
    requires UrlNonGroupField(s1).Ok? && UrlNonGroupField(s2).Ok?
    requires UrlNonGroupField(s1).rest == UrlNonGroupField(s2).rest
    ensures NonGroupLine(ext, s1) == NonGroupLine(ext, s2)
  {
    LetterLeadNonGroupLine(ext, s1);
    LetterLeadNonGroupLine(ext, s2);
    assert SitemapField(ext, s1) == SitemapField(ext, s2);
    FinishLineFrom(s1, s2, SitemapField(ext, s1));
  }

  /** `Sitemap` and `sitemap` read a line alike. */
  lemma CapitalisedSitemapAgrees(ext: Externals, x: string)
    ensures NonGroupLine(ext, "Sitemap" + x) == NonGroupLine(ext, "sitemap" + x)
  {
    var s1, s2 := "Sitemap" + x, "sitemap" + x;
    PrefixOfConcat("Sitemap", x);
    PrefixOfConcat("sitemap", x);
    FirstOfPicksByLead(SitemapSpellings, s1, 1);
    FirstOfPicksByLead(SitemapSpellings, s2, 0);
    NonGroupLineByName(ext, s1, s2);
  }

  /** What a start-of-group line reads after its keyword, which left `u` of the line `s`. */
  function AfterAgentName(s: string, u: string): Reply<Record>
    requires |u| <= |s|
  {
    match Colon(u)
    case Fail => Fail
    case Ok(_, v) =>
      var agent := AgentValue(v);
      FinishLine(s, Ok((UserAgent, agent.value), agent.rest))
  }

  lemma StartGroupLineAfterName(s: string)
    requires |s| > 0 && 'A' <= s[0] <= 'z' && UserAgentField(s).Ok?
    ensures |UserAgentField(s).rest| <= |s|
    ensures StartGroupLine(s) == AfterAgentName(s, UserAgentField(s).rest)
  {
    OptLwsAtNonBlank(s);
  }

  lemma AfterAgentNameFrom(s1: string, s2: string, u: string)
    requires |u| <= |s1| && |u| <= |s2|
    ensures AfterAgentName(s1, u) == AfterAgentName(s2, u)
  {
    match Colon(u)
    case Fail =>
    case Ok(_, v) =>
      var agent := AgentValue(v);
      FinishLineFrom(s1, s2, Ok((UserAgent, agent.value), agent.rest));
  }

  /** Two user-agent keywords followed by the same text read alike. */
  lemma StartGroupLineByName(s1: string, s2: string)
    requires |s1| > 0 && 'A' <= s1[0] <= 'z' && |s2| > 0 && 'A' <= s2[0] <= 'z'
    requires UserAgentField(s1).Ok? && UserAgentField(s2).Ok?
    requires UserAgentField(s1).rest == UserAgentField(s2).rest
    ensures StartGroupLine(s1) == StartGroupLine(s2)
  {
    StartGroupLineAfterName(s1);
    StartGroupLineAfterName(s2);
    AfterAgentNameFrom(s1, s2, UserAgentField(s1).rest);
  }

  /** `User-agent` and `user-agent` read a line alike. */
  lemma CapitalisedUserAgentAgrees(x: string)
    ensures StartGroupLine("User-agent" + x) == StartGroupLine("user-agent" + x)
  {
    var s1, s2 := "User-agent" + x, "user-agent" + x;
    PrefixOfConcat("User-agent", x);
    PrefixOfConcat("user-agent", x);
    FirstOfPicksByLead(UserAgentSpellings, s1, 1);
    FirstOfPicksByLead(UserAgentSpellings, s2, 0);
    StartGroupLineByName(s1, s2);
  }

  lemma NoSpellingAtSecond(spellings: seq<string>, s: string)
    requires |s| > 1 && forall k :: k in spellings ==> |k| > 1 && k[1] != s[1]
    ensures FirstOf(spellings, s).Fail?
  {
  }

  /** No accepted spelling of a keyword is its upper-case form. */
  lemma UpperCaseIsNoSpelling(t: string)
    requires "USER-AGENT" <= t || "ALLOW" <= t || "DISALLOW" <= t || "SITEMAP" <= t
    ensures UserAgentField(t).Fail? && PathMemberField(t).Fail? && UrlNonGroupField(t).Fail?
  {
    assert |t| > 1 && t[1] in {'S', 'L', 'I'};
    assert UserAgentField(t).Fail? by {
      NoSpellingAtSecond(UserAgentSpellings, t);
    }
    assert PathMemberField(t).Fail? by {
      NoSpellingAtSecond(PathMemberSpellings, t);
    }
    assert UrlNonGroupField(t).Fail? by {
      NoSpellingAtSecond(SitemapSpellings, t);
    }
  }

  /** Upper-case keywords are not among the accepted spellings: no line starts with one. */
  lemma UpperCaseKeywordsFail(ext: Externals, s: string)
    requires var t := OptLws(s); "USER-AGENT" <= t || "ALLOW" <= t || "DISALLOW" <= t || "SITEMAP" <= t
    ensures StartGroupLine(s).Fail?
    ensures GroupMemberLine(ext, s).Fail?
    ensures NonGroupLine(ext, s).Fail?
    ensures CommentText(s).Fail?
  {
    var t := OptLws(s);
    UpperCaseIsNoSpelling(t);
    NoColonAtLetter(t);
    assert PathMemberDirective(ext, t).Fail? && SitemapField(ext, t).Fail?;
  }

  lemma HashLead(body: string)
    ensures OptLws("#" + body) == "#" + body
    ensures Literal("#", "#" + body) == Ok("#", body)
  {
    OptLwsAtNonBlank("#" + body);
    assert ("#" + body)[1..] == body;
  }

  lemma CommentFromParts(s: string, c: string, x: string)
    requires OptLws(s) == s && Literal("#", s) == Ok("#", c + x) && Span(IsAnychar, c + x) == Ok(c, x)
    ensures CommentText(s) == Ok(Trim(c), x)
  {
  }

  /**
   The comment rule reads exactly the run of line characters after the `#`:
   `#` then `c` then a control character, a line ending or the end of input
   gives `c` trimmed, and leaves the input from that point untouched.
   */
  lemma CommentReads(c: string, x: string)
    requires forall i :: 0 <= i < |c| ==> IsAnychar(c[i])
    requires |x| == 0 || !IsAnychar(x[0])
    ensures CommentText("#" + c + x) == Ok(Trim(c), x)
  {
    var s := "#" + c + x;
    HashLead(c + x);
    assert "#" + (c + x) == s;
    assert Span(IsAnychar, c + x) == Ok(c, x) by {
      SpanOfConcat(IsAnychar, c, x);
    }
    CommentFromParts(s, c, x);
  }
}
