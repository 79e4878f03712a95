/**
 Worked examples: the grammar applied to concrete lines, as the project's
 test suite (test/parsers.js) exercises it.
 */
module Vectors {
  import opened Combinators
  import opened Chars
  import opened Lexical
  import opened Records
  import opened Lines
  import opened Readings
  import opened Document

  /** EOL takes CR LF as one line ending and fails on empty input. */
  lemma EolVectors()
    ensures Eol("\r\n") == Ok("\r\n", "")
    ensures Eol("\r") == Ok("\r", "") && Eol("\n") == Ok("\n", "")
    ensures Eol("").Fail?
  {
  }

  /** LWS needs a space or tab: the empty text, a bare line ending and a letter are not LWS. */
  lemma LwsRejects()
    ensures Lws("").Fail? && Lws("\n").Fail? && Lws("a").Fail?
  {
  }

  /** CR LF then a space is one LWS. */
  lemma LwsAfterCrLf()
    ensures Lws("\r\n ") == Ok("\r\n ", "")
  {
    assert "\r\n" + " " + "" == "\r\n ";
    LwsReads("\r\n", " ", "");
  }

  /** LF then spaces and a tab is one LWS, which stops at the next non-blank. */
  lemma LwsAfterLf()
    ensures Lws("\n  \tx") == Ok("\n  \t", "x")
  {
    assert "\n" + "  \t" + "x" == "\n  \tx";
    assert "\n" + "  \t" == "\n  \t";
    LwsReads("\n", "  \t", "x");
  }

  /** `sitemaps` and `allows` are not whole keywords: the recogniser stops after the keyword. */
  lemma KeywordPrefixVectors()
    ensures UrlNonGroupField("sitemaps") == Ok("sitemap", "s")
    ensures PathMemberField("allows") == Ok("allow", "s")
    ensures PathMemberField("disallows") == Ok("disallow", "s")
  {
    PrefixOfConcat("sitemap", "s");
    assert "sitemap" + "s" == "sitemaps";
    FirstOfPicksByLead(SitemapSpellings, "sitemaps", 0);
    PrefixOfConcat("allow", "s");
    assert "allow" + "s" == "allows";
    FirstOfPicksByLead(PathMemberSpellings, "allows", 1);
    PrefixOfConcat("disallow", "s");
    assert "disallow" + "s" == "disallows";
    FirstOfPicksByLead(PathMemberSpellings, "disallows", 0);
  }

  /** textvalue keeps the spaces before a `#` and stops at it. */
  lemma TextValueVector()
    ensures TextValue("bar #h3y!\n") == Ok("bar ", "#h3y!\n")
  {
    assert "bar " + "#h3y!\n" == "bar #h3y!\n";
    SpanOfConcat(IsValueOrSpace, "bar ", "#h3y!\n");
  }

  /** A comment body with no white space at either end is read as it stands. */
  lemma CommentOfTrimmed(c: string, x: string)
    requires IsTrimmed(c) && forall i :: 0 <= i < |c| ==> IsAnychar(c[i])
    requires |x| == 0 || !IsAnychar(x[0])
    ensures CommentText("#" + c + x) == Ok(c, x)
  {
    TrimOfTrimmed(c);
    CommentReads(c, x);
  }

  /** The trailing comment `#h3y!` reads as `h3y!` and leaves the line ending. */
  lemma CommentVector()
    ensures CommentText("#h3y!\n") == Ok("h3y!", "\n")
  {
    assert "#" + "h3y!" + "\n" == "#h3y!\n";
    CommentOfTrimmed("h3y!", "\n");
  }

  /** The comment rule reads the same text once its leading LWS is skipped. */
  lemma CommentAfterLws(s: string, t: string)
    requires OptLws(s) == t && OptLws(t) == t
    ensures CommentText(s) == CommentText(t)
  {
  }

  /** `#s0me comment!` at the end of the input reads as `s0me comment!`. */
  lemma CommentToEndVector()
    ensures CommentText("#s0me comment!") == Ok("s0me comment!", "")
  {
    assert "#" + "s0me comment!" + "" == "#s0me comment!";
    CommentOfTrimmed("s0me comment!", "");
  }

  /** A comment on a continuation line: the leading line ending and blanks are skipped. */
  lemma CommentAfterLwsVector()
    ensures CommentText("\n \t#s0me comment!") == Ok("s0me comment!", "")
  {
    var t := "#s0me comment!";
    assert "\n" + " \t" + t == "\n \t#s0me comment!";
    assert OptLws("\n \t#s0me comment!") == t by {
      LwsReads("\n", " \t", t);
    }
    assert OptLws(t) == t by {
      OptLwsAtNonBlank(t);
    }
    CommentAfterLws("\n \t#s0me comment!", t);
    CommentToEndVector();
  }

  /** One blank before a non-blank is exactly one LWS. */
  lemma LwsOneBlank(x: string)
    requires !BlankAt(x, 0)
    ensures Lws(" " + x) == Ok(" ", x)
  {
    assert Span(IsBlank, " " + x) == Ok(" ", x) by {
      SpanOfConcat(IsBlank, " ", x);
    }
    assert "" + " " == " ";
  }

  lemma ColonFrom(s: string, u: string)
    requires OptLws(s) == s && Literal(":", s) == Ok(":", u)
    ensures Colon(s) == Ok(":", OptLws(u))
  {
  }

  /** `: ` before a value that starts with neither a blank nor a line ending. */
  lemma ColonThenSpace(x: string)
    requires |x| > 0 && !IsBlank(x[0]) && !IsEolChar(x[0])
    ensures Colon(": " + x) == Ok(":", x)
  {
    var s := ": " + x;
    assert s == ":" + (" " + x);
    assert OptLws(s) == s by {
      OptLwsAtNonBlank(s);
    }
    assert Literal(":", s) == Ok(":", " " + x) by {
      PrefixOfConcat(":", " " + x);
    }
    assert OptLws(" " + x) == x by {
      LwsOneBlank(x);
    }
    ColonFrom(s, " " + x);
  }

  /** `[LWS] ":" [LWS]` on `: bar …` leaves the value. */
  lemma ColonVector()
    ensures Colon(": bar #h3y!\n") == Ok(":", "bar #h3y!\n")
  {
    assert ": " + "bar #h3y!\n" == ": bar #h3y!\n";
    ColonThenSpace("bar #h3y!\n");
  }

  /** The empty-name field of `: bar #h3y!`, finished by its comment and line ending. */
  lemma EmptyNameFieldVector()
    ensures FinishLine(": bar #h3y!\n", OtherField(OtherNonGroupField, ": bar #h3y!\n"))
         == Ok(Directive(OtherNonGroupField, "bar ", Some("h3y!")), "")
  {
    var s := ": bar #h3y!\n";
    var t := "#h3y!\n";
    assert OtherField(OtherNonGroupField, s) == Ok((OtherNonGroupField, "bar "), t) by {
      ColonVector();
      TextValueVector();
    }
    assert MaybeComment(t) == Ok(Some("h3y!"), "\n") by {
      CommentVector();
    }
    assert Eol("\n") == Ok("\n", "");
  }

  /**
   `: bar #h3y!` is an empty-name line whose value keeps its trailing space
   and whose comment is trimmed; inside a group it is an OtherMemberField.
   */
  lemma EmptyNameLineVector(ext: Externals)
    ensures NonGroupLine(ext, ": bar #h3y!\n") == Ok(Directive(OtherNonGroupField, "bar ", Some("h3y!")), "")
    ensures GroupMemberLine(ext, ": bar #h3y!\n") == Ok(Directive(OtherMemberField, "bar ", Some("h3y!")), "")
  {
    var s := ": bar #h3y!\n";
    assert OptLws(s) == s by {
      OptLwsAtNonBlank(s);
    }
    assert NonGroupLine(ext, s) == Ok(Directive(OtherNonGroupField, "bar ", Some("h3y!")), "") by {
      EmptyNameFieldVector();
      OtherFieldRetag(s);
      EmptyNameLines(ext, s);
    }
    OtherLinesAgree(ext, s);
  }

  /** agentvalue reads `curl` and stops at the line ending. */
  lemma AgentValueVector()
    ensures AgentValue("curl\n") == Ok("curl", "\n")
  {
    assert "curl" + "\n" == "curl\n";
    SpanOfConcat(IsValueOrSpace, "curl", "\n");
  }

  /** A bare line ending carries no comment and ends the line. */
  lemma BareEolFinishes(s: string, f: Field, v: string)
    requires |s| > 1
    ensures FinishLine(s, Ok((f, v), "\n")) == Ok(Directive(f, v, None), "")
  {
    assert Lws("\n").Fail?;
    assert CommentText("\n").Fail?;
    assert Eol("\n") == Ok("\n", "");
  }

  /** The keyword and separator of `user-agent: curl`. */
  lemma UserAgentNameVector()
    ensures UserAgentField("user-agent: curl\n") == Ok("user-agent", ": curl\n")
    ensures Colon(": curl\n") == Ok(":", "curl\n")
  {
    assert "user-agent" + ": curl\n" == "user-agent: curl\n";
    assert ": " + "curl\n" == ": curl\n";
    PrefixOfConcat("user-agent", ": curl\n");
    FirstOfPicksByLead(UserAgentSpellings, "user-agent: curl\n", 0);
    ColonThenSpace("curl\n");
  }

  /** `user-agent: curl` reads as a user-agent record without a comment. */
  lemma StartGroupVector()
    ensures StartGroupLine("user-agent: curl\n") == Ok(Directive(UserAgent, "curl", None), "")
  {
    var s := "user-agent: curl\n";
    UserAgentNameVector();
    AgentValueVector();
    StartGroupLineAfterName(s);
    BareEolFinishes(s, UserAgent, "curl");
  }

  /** Text holding neither CR nor LF. */
  predicate Unterminated(s: string) {
    forall i :: 0 <= i < |s| ==> !IsEolChar(s[i])
  }

  lemma UnterminatedTexts()
    ensures Unterminated("allow: /static/sitemap.xml") && Unterminated("allow: ")
    ensures Unterminated("user-agent: curl") && Unterminated("user-agent: ")
    ensures Unterminated(": bar") && Unterminated("sitemap: ")
  {
  }

  /** A line without its line ending is no line. */
  lemma UnterminatedLineVectors(ext: Externals)
    ensures GroupMemberLine(ext, "allow: /static/sitemap.xml").Fail? && GroupMemberLine(ext, "allow: ").Fail?
    ensures StartGroupLine("user-agent: curl").Fail? && StartGroupLine("user-agent: ").Fail?
    ensures NonGroupLine(ext, ": bar").Fail? && NonGroupLine(ext, "sitemap: ").Fail?
  {
    UnterminatedTexts();
    NoLineWithoutEol(ext, "allow: /static/sitemap.xml");
    NoLineWithoutEol(ext, "allow: ");
    NoLineWithoutEol(ext, "user-agent: curl");
    NoLineWithoutEol(ext, "user-agent: ");
    NoLineWithoutEol(ext, ": bar");
    NoLineWithoutEol(ext, "sitemap: ");
  }

  /** A keyword of the other line kind makes the line fail rather than fall back. */
  lemma WrongKindVectors(ext: Externals, x: string)
    ensures GroupMemberLine(ext, "sitemap" + x).Fail? && StartGroupLine("sitemap" + x).Fail?
    ensures NonGroupLine(ext, "allow" + x).Fail? && StartGroupLine("allow" + x).Fail?
  {
    assert OptLws("sitemap" + x) == "sitemap" + x by {
      OptLwsAtNonBlank("sitemap" + x);
    }
    NoMemberAt(ext, "sitemap" + x);
    NoAgentAt("sitemap" + x);
    assert OptLws("allow" + x) == "allow" + x by {
      OptLwsAtNonBlank("allow" + x);
    }
    NoNonGroupAt(ext, "allow" + x);
    NoAgentAt("allow" + x);
  }

  /**
   `allow` followed by a value that does not start with `/` fails: the path
   keyword commits the line, and a URL is no path value.
   */
  lemma PathNeedsSlash(ext: Externals, x: string)
    requires |x| > 0 && x[0] != '/' && !IsBlank(x[0]) && !IsEolChar(x[0])
    ensures GroupMemberLine(ext, "allow: " + x).Fail?
  {
    var s := "allow: " + x;
    assert s == "allow" + (": " + x);
    assert PathMemberField(s) == Ok("allow", ": " + x) by {
      PrefixOfConcat("allow", ": " + x);
      FirstOfPicksByLead(PathMemberSpellings, s, 1);
    }
    assert Colon(": " + x) == Ok(":", x) by {
      ColonThenSpace(x);
    }
    assert PathMemberDirective(ext, s).Fail?;
    LetterLeadMemberLine(ext, s);
  }

  /** The field name and separator of an `allow` line. */
  lemma AllowFieldVector(v: string)
    requires |v| > 0 && !IsBlank(v[0]) && !IsEolChar(v[0])
    ensures PathMemberField("allow: " + v) == Ok("allow", ": " + v)
    ensures Colon(": " + v) == Ok(":", v)
  {
    var s := "allow: " + v;
    assert s == "allow" + (": " + v);
    assert PathMemberField(s) == Ok("allow", ": " + v) by {
      PrefixOfConcat("allow", ": " + v);
      FirstOfPicksByLead(PathMemberSpellings, s, 1);
    }
    ColonThenSpace(v);
  }

  /**
   An `allow` line whose value the URL path rule reads in full is an Allow
   directive whose path is the slash and that value.
   */
  lemma AllowDirectiveVector(ext: Externals)
    requires ext.path("static/*.js\n") == Ok("static/*.js", "\n")
    ensures PathMemberDirective(ext, "allow: /static/*.js\n") == Ok((Allow, "/static/*.js"), "\n")
  {
    var v := "/static/*.js\n";
    assert "allow: " + v == "allow: /static/*.js\n";
    assert "static/*.js" + "\n" == "static/*.js\n";
    assert "/" + "static/*.js" + "\n" == v;
    assert "/" + "static/*.js" == "/static/*.js";
    AllowFieldVector(v);
    PathValueReads(ext, "static/*.js", "\n");
    LowerPathSpellings();
  }

  /** ... and, finished by its line ending, an Allow record without a comment. */
  lemma AllowLineVector(ext: Externals)
    requires ext.path("static/*.js\n") == Ok("static/*.js", "\n")
    ensures GroupMemberLine(ext, "allow: /static/*.js\n") == Ok(Directive(Allow, "/static/*.js", None), "")
  {
    var s := "allow: /static/*.js\n";
    AllowDirectiveVector(ext);
    LetterLeadMemberLine(ext, s);
    BareEolFinishes(s, Allow, "/static/*.js");
  }

  /** `h3y!` is already trimmed line text. */
  lemma H3yIsTrimmed()
    ensures IsLineText("h3y!") && Trim("h3y!") == "h3y!"
  {
    TrimOfTrimmed("h3y!");
  }

  /** `: f00` with no comment is an empty-name line in both line rules. */
  lemma EmptyNameNoCommentVector(ext: Externals)
    ensures NonGroupLine(ext, ": f00\n") == Ok(Directive(OtherNonGroupField, "f00", None), "")
    ensures GroupMemberLine(ext, ": f00\n") == Ok(Directive(OtherMemberField, "f00", None), "")
  {
    var p := LineParts("", "", "", " ", "f00", "", None, "\n");
    assert LineText(p, "") == ": f00\n";
    EmptyNameLineReads(ext, p, "");
  }

  /** The parts of the test's `allow` and `disallow` lines with a path and the comment `h3y!`. */
  function PathLineParts(k: string): LineParts {
    LineParts("", k, "", " ", "/static/*.js", " ", Some("h3y!"), "\n")
  }

  /** What follows the path on those lines, and the path without its slash. */
  lemma PathLineText(k: string)
    ensures AfterValue(PathLineParts(k), "") == " #h3y!\n"
    ensures PathLineParts(k).value[1..] == "static/*.js"
  {
    assert LineEnd(Some("h3y!"), "\n") == "#h3y!\n";
    assert "/static/*.js"[1..] == "static/*.js";
  }

  /** The whole text of those lines. */
  lemma PathLineWhole(k: string)
    ensures LineText(PathLineParts(k), "") == k + ": /static/*.js #h3y!\n"
  {
    assert LineEnd(Some("h3y!"), "\n") + "" == "#h3y!\n";
    assert ":" + (" " + ("/static/*.js" + (" " + "#h3y!\n"))) == ": /static/*.js #h3y!\n";
  }

  /** Those lines are well spaced and well ended. */
  lemma PathLineSpaced(k: string)
    ensures WellSpaced(PathLineParts(k), "")
  {
    H3yIsTrimmed();
    assert IsEolText("\n");
    assert IsBlanks(" ") by { assert " "[0] == ' '; }
  }

  /** A path line with the comment `h3y!`, read through the general reading of path lines. */
  lemma PathCommentLine(ext: Externals, k: string, line: string)
    requires k in PathMemberSpellings && line == k + ": /static/*.js #h3y!\n"
    requires ext.path("static/*.js #h3y!\n") == Ok("static/*.js", " #h3y!\n")
    ensures GroupMemberLine(ext, line) == Ok(Directive(PathTag(k), "/static/*.js", Some("h3y!")), "")
  {
    PathLineWhole(k);
    PathLineText(k);
    PathLineSpaced(k);
    assert "static/*.js" + " #h3y!\n" == "static/*.js #h3y!\n";
    H3yIsTrimmed();
    PathLineReads(ext, PathLineParts(k), "");
  }

  /** The two comment-bearing path lines, spelled out. */
  lemma PathCommentSpelling()
    ensures "allow" + ": /static/*.js #h3y!\n" == "allow: /static/*.js #h3y!\n"
    ensures "disallow" + ": /static/*.js #h3y!\n" == "disallow: /static/*.js #h3y!\n"
  {
  }

  /**
   `allow` with the test's path and the comment `h3y!`, given a URL path rule
   that stops at the blank before the comment.
   */
  lemma AllowCommentVector(ext: Externals)
    requires ext.path("static/*.js #h3y!\n") == Ok("static/*.js", " #h3y!\n")
    ensures GroupMemberLine(ext, "allow: /static/*.js #h3y!\n") == Ok(Directive(Allow, "/static/*.js", Some("h3y!")), "")
  {
    assert PathTag("allow") == Allow;
    PathCommentSpelling();
    PathCommentLine(ext, "allow", "allow: /static/*.js #h3y!\n");
  }

  /** ... and the same line with `disallow`. */
  lemma DisallowCommentVector(ext: Externals)
    requires ext.path("static/*.js #h3y!\n") == Ok("static/*.js", " #h3y!\n")
    ensures GroupMemberLine(ext, "disallow: /static/*.js #h3y!\n") == Ok(Directive(Disallow, "/static/*.js", Some("h3y!")), "")
  {
    assert PathTag("disallow") == Disallow;
    PathCommentSpelling();
    PathCommentLine(ext, "disallow", "disallow: /static/*.js #h3y!\n");
  }

  /**
   `sitemap: <url> #h3y!` with the comment, given an absolute-URL rule that
   reads `url` and stops at the blank before the comment.
   */
  lemma SitemapCommentVector(ext: Externals, url: string)
    requires |url| > 0 && 'a' <= url[0] <= 'z'
    requires ext.absoluteUrl(url + " #h3y!\n") == Ok(url, " #h3y!\n")
    ensures NonGroupLine(ext, "sitemap: " + url + " #h3y!\n") == Ok(Directive(Sitemap, url, Some("h3y!")), "")
  {
    var p := LineParts("", "sitemap", "", " ", url, " ", Some("h3y!"), "\n");
    H3yIsTrimmed();
    assert AfterValue(p, "") == " #h3y!\n";
    assert LineText(p, "") == "sitemap: " + url + " #h3y!\n";
    SitemapLineReads(ext, p, "");
  }
}
