/**
 Lexical primitives, values and field names of the robots.txt grammar
 (src/parsers.js, lines 42-60).
 */
module Lexical {
  import opened Combinators
  import opened Chars

  /**
   What the grammar takes from outside: the URL path and absolute-URL rules
   of the URL grammar library, and the white-space class of the combinator
   library that `parse` skips at the end of the document.
   */
  datatype Externals = Externals(path: SubGrammar, absoluteUrl: SubGrammar, isSpace: char -> bool)

  /** One of the three spellings of a line ending. */
  predicate IsEolText(v: string) {
    v == "\r\n" || v == "\r" || v == "\n"
  }

  predicate IsEolChar(c: char) {
    c == '\r' || c == '\n'
  }

  predicate BlankAt(s: string, i: nat) {
    i < |s| && IsBlank(s[i])
  }

  /** `p.sat(pred)`: one character satisfying `pred`. */
  function Sat(pred: char -> bool, s: string): (r: Reply<char>)
    ensures r.Ok? <==> |s| > 0 && pred(s[0])
    ensures r.Ok? ==> [r.value] + r.rest == s
  {
    if |s| > 0 && pred(s[0]) then Ok(s[0], s[1..]) else Fail
  }

  /** `maybe` applied to a text rule: on failure, the empty text and the input untouched. */
  function MaybeText(r: Reply<string>, s: string): Reply<string> {
    if r.Ok? then r else Ok("", s)
  }

  /**
   EOL: CR LF, a lone CR or a lone LF. The two-character form is tried
   first, so CR LF is always one line ending, never a CR followed by an LF.
   */
  function Eol(s: string): (r: Reply<string>)
    ensures r.Ok? <==> |s| > 0 && IsEolChar(s[0])
    ensures r.Ok? ==> r.value + r.rest == s && IsEolText(r.value)
    ensures r.Ok? ==> ("\r\n" <= s <==> r.value == "\r\n")
  {
    Or(Literal("\r\n", s), Or(Literal("\r", s), Literal("\n", s)))
  }

  /**
   LWS: an optional line ending followed by one or more spaces or tabs,
   taken greedily. A line ending not followed by a blank is not LWS.
   */
  function Lws(s: string): (r: Reply<string>)
    ensures r.Ok? <==> || BlankAt(s, 0)
                       || (|s| > 0 && IsEolChar(s[0]) && BlankAt(s, 1))
                       || ("\r\n" <= s && BlankAt(s, 2))
    ensures r.Ok? ==> r.value + r.rest == s && |r.value| > 0
    ensures r.Ok? ==> !BlankAt(r.rest, 0)
    ensures r.Ok? ==> forall i :: 0 <= i < |r.value| && !IsBlank(r.value[i]) ==> i < 2 && IsEolChar(r.value[i])
  {
    var eol := MaybeText(Eol(s), s);
    OptionalEol(s);
    var blanks := Span(IsBlank, eol.rest);
    assert |blanks.value| > 0 ==> eol.rest[0] == blanks.value[0];
    assert |blanks.value| == 0 ==> blanks.rest == eol.rest;
    if |blanks.value| == 0 then Fail
    else
      var v := eol.value + blanks.value;
      ConcatAssoc(eol.value, blanks.value, blanks.rest);
      BreakThenBlanks(eol.value, blanks.value);
      Ok(v, blanks.rest)
  }

  lemma BreakThenBlanks(e: string, b: string)
    requires |e| <= 2 && forall i :: 0 <= i < |e| ==> IsEolChar(e[i])
    requires forall i :: 0 <= i < |b| ==> IsBlank(b[i])
    ensures forall i :: 0 <= i < |e + b| && !IsBlank((e + b)[i]) ==> i < 2 && IsEolChar((e + b)[i])
  {
    forall i | 0 <= i < |e + b| && !IsBlank((e + b)[i])
      ensures i < 2 && IsEolChar((e + b)[i])
    {
      assert i < |e|;
    }
  }

  /** What `p.maybe(EOL)` leaves: a blank follows it exactly when LWS can match. */
  lemma OptionalEol(s: string)
    ensures var e := MaybeText(Eol(s), s);
      && e.Ok? && e.value + e.rest == s && |e.value| <= 2
      && (forall i :: 0 <= i < |e.value| ==> IsEolChar(e.value[i]))
      && (BlankAt(e.rest, 0) <==> || BlankAt(s, 0)
                                  || (|s| > 0 && IsEolChar(s[0]) && BlankAt(s, 1))
                                  || ("\r\n" <= s && BlankAt(s, 2)))
  {
    var e := MaybeText(Eol(s), s);
    if Eol(s).Ok? {
      if "\r\n" <= s {
        assert e.rest == s[2..];
      } else {
        assert e.rest == s[1..];
      }
    }
  }

  /**
   LWS reads exactly a line ending (or none) and the whole run of blanks
   after it, and leaves the input from the first non-blank untouched.
   */
  lemma LwsReads(e: string, b: string, x: string)
    requires e == "" || IsEolText(e)
    requires |b| > 0 && forall i :: 0 <= i < |b| ==> IsBlank(b[i])
    requires !BlankAt(x, 0)
    ensures Lws(e + b + x) == Ok(e + b, x)
  {
    var s := e + b + x;
    assert s == e + (b + x);
    assert (b + x)[0] == b[0];
    assert MaybeText(Eol(s), s) == Ok(e, b + x) by {
      if e == "" {
        assert Eol(s).Fail?;
      } else {
        assert s[0] == e[0];
        assert |e| == 1 ==> s[1] == b[0];
        assert Eol(s).value[0] == s[0];
      }
    }
    assert Span(IsBlank, b + x) == Ok(b, x) by {
      SpanOfConcat(IsBlank, b, x);
    }
  }

  /** EOL reads exactly the line ending in front of it, unless that is a CR followed by an LF. */
  lemma EolReads(e: string, x: string)
    requires IsEolText(e)
    requires !(e == "\r" && |x| > 0 && x[0] == '\n')
    ensures Eol(e + x) == Ok(e, x)
  {
    var s := e + x;
    assert s[0] == e[0];
    assert |e| == 2 ==> s[1] == '\n';
    if e == "\r\n" {
      assert s[..2] == e;
    } else {
      assert s[..1] == e;
    }
  }

  /** `p.maybe(LWS)`, keeping only the input that is left. */
  function OptLws(s: string): (r: string)
    ensures |r| <= |s|
  {
    match Lws(s)
    case Ok(v, rest) => rest
    case Fail => s
  }

  /** BOM: one U+FEFF. */
  function Bom(s: string): (r: Reply<char>)
    ensures r.Ok? <==> |s| > 0 && s[0] == BOM
    ensures r.Ok? ==> r.rest == s[1..]
  {
    Sat(IsBOM, s)
  }

  /**
   `either([valuechar, char(' ')])`. A space is already a value character,
   so this is the value-character class itself, spelled as the source does.
   */
  predicate IsValueOrSpace(c: char) {
    IsValuechar(c) || c == ' '
  }

  /**
   textvalue: value characters and spaces, greedily. It never fails; its
   value holds no `#` and no control character, and it stops only at the end
   of input or at such a character.
   */
  function TextValue(s: string): (r: Reply<string>)
    ensures r.Ok? && r.value + r.rest == s
    ensures forall i :: 0 <= i < |r.value| ==> IsValuechar(r.value[i])
    ensures |r.rest| == 0 || !IsValuechar(r.rest[0])
  {
    Span(IsValueOrSpace, s)
  }

  /** textvalue reads a whole run of value characters, up to the first character outside it. */
  lemma TextValueReads(v: string, y: string)
    requires forall i :: 0 <= i < |v| ==> IsValuechar(v[i])
    requires |y| == 0 || !IsValuechar(y[0])
    ensures TextValue(v + y) == Ok(v, y)
  {
    SpanOfConcat(IsValueOrSpace, v, y);
  }

  /** agentvalue is the same rule as textvalue. */
  function AgentValue(s: string): Reply<string> {
    TextValue(s)
  }

  /** ... so an agent name is read exactly as a text value is. */
  lemma AgentValueReads(v: string, y: string)
    requires forall i :: 0 <= i < |v| ==> IsValuechar(v[i])
    requires |y| == 0 || !IsValuechar(y[0])
    ensures AgentValue(v + y) == Ok(v, y)
  {
    TextValueReads(v, y);
  }

  /** urlvalue is the absolute-URL rule of the URL grammar library. */
  function UrlValue(ext: Externals, s: string): (r: Reply<string>)
    ensures Consumes(r, s)
  {
    ext.absoluteUrl(s)
  }

  /** pathvalue: a `/` and then the URL path rule; without the `/` it fails. */
  function PathValue(ext: Externals, s: string): (r: Reply<string>)
    ensures r.Ok? <==> |s| > 0 && s[0] == '/' && ext.path(s[1..]).Ok?
    ensures r.Ok? ==> |r.value| > 0 && r.value[0] == '/'
    ensures r.Ok? ==> IsSuffix(r.rest, s) && |r.rest| < |s|
  {
    match Literal("/", s)
    case Fail => Fail
    case Ok(slash, afterSlash) =>
      assert afterSlash == s[1..];
      match ext.path(afterSlash)
      case Fail => Fail
      case Ok(p, rest) =>
        assert Consumes(ext.path(afterSlash), afterSlash);
        SuffixOfConcat(slash, afterSlash);
        SuffixTransitive(rest, afterSlash, s);
        Ok(slash + p, rest)
  }

  /** pathvalue is the slash and whatever the URL path rule reads after it. */
  lemma PathValueReads(ext: Externals, p: string, x: string)
    requires ext.path(p + x) == Ok(p, x)
    ensures PathValue(ext, "/" + p + x) == Ok("/" + p, x)
  {
    assert "/" + p + x == "/" + (p + x);
    PrefixOfConcat("/", p + x);
  }

  /** The first of `spellings` that `s` starts with (an `either` of `p.string`s). */
  function FirstOf(spellings: seq<string>, s: string): (r: Reply<string>)
    ensures r.Ok? <==> exists k :: k in spellings && k <= s
    ensures r.Ok? ==> r.value in spellings && r.value + r.rest == s
  {
    if |spellings| == 0 then Fail
    else
      var tail := spellings[1..];
      assert spellings == [spellings[0]] + tail;
      assert forall k :: k in spellings <==> k == spellings[0] || k in tail;
      assert spellings[0] in spellings;
      Or(Literal(spellings[0], s), FirstOf(tail, s))
  }

  /** FirstOf takes the first spelling, in list order, that the input starts with. */
  lemma {:induction false} FirstOfPicks(spellings: seq<string>, s: string, j: nat)
    requires j < |spellings| && spellings[j] <= s
    requires forall i :: 0 <= i < j ==> !(spellings[i] <= s)
    ensures FirstOf(spellings, s) == Ok(spellings[j], s[|spellings[j]|..])
  {
    if j > 0 {
      assert !(spellings[0] <= s);
      var tail := spellings[1..];
      assert tail[j - 1] == spellings[j];
      assert forall i :: 0 <= i < j - 1 ==> tail[i] == spellings[i + 1];
      FirstOfPicks(tail, s, j - 1);
    }
  }

  /** ... in particular when every earlier spelling begins with another character. */
  lemma FirstOfPicksByLead(spellings: seq<string>, s: string, j: nat)
    requires j < |spellings| && spellings[j] <= s && |s| > 0
    requires forall i :: 0 <= i < j ==> |spellings[i]| > 0 && spellings[i][0] != s[0]
    ensures FirstOf(spellings, s) == Ok(spellings[j], s[|spellings[j]|..])
  {
    FirstOfPicks(spellings, s, j);
  }

  /** A keyword spelling followed by any text is read as that spelling. */
  lemma PrefixOfConcat(k: string, x: string)
    ensures k <= k + x && (k + x)[|k|..] == x
  {
    assert (k + x)[..|k|] == k;
  }

  const PathMemberSpellings: seq<string> := ["disallow", "allow", "Disallow", "Allow"]
  const SitemapSpellings: seq<string> := ["sitemap", "Sitemap"]
  const UserAgentSpellings: seq<string> := ["user-agent", "User-agent"]

  /** pathmemberfield: only the four listed spellings of allow and disallow. */
  function PathMemberField(s: string): Reply<string> {
    FirstOf(PathMemberSpellings, s)
  }

  /** urlnongroupfield: only `sitemap` and `Sitemap`. */
  function UrlNonGroupField(s: string): Reply<string> {
    FirstOf(SitemapSpellings, s)
  }

  /** The field name of a start-of-group line: only `user-agent` and `User-agent`. */
  function UserAgentField(s: string): Reply<string> {
    FirstOf(UserAgentSpellings, s)
  }

  /** Each listed spelling of allow and disallow is read as itself, whatever follows it. */
  lemma PathMemberFieldReads(k: string, x: string)
    requires k in PathMemberSpellings
    ensures PathMemberField(k + x) == Ok(k, x)
  {
    PrefixOfConcat(k, x);
    var j := if k == "disallow" then 0 else if k == "allow" then 1 else if k == "Disallow" then 2 else 3;
    assert PathMemberSpellings[j] == k;
    FirstOfPicksByLead(PathMemberSpellings, k + x, j);
  }

  /** `sitemap` and `Sitemap` are read as themselves, whatever follows them. */
  lemma UrlNonGroupFieldReads(k: string, x: string)
    requires k in SitemapSpellings
    ensures UrlNonGroupField(k + x) == Ok(k, x)
  {
    PrefixOfConcat(k, x);
    var j := if k == "sitemap" then 0 else 1;
    assert SitemapSpellings[j] == k;
    FirstOfPicksByLead(SitemapSpellings, k + x, j);
  }

  /** `user-agent` and `User-agent` are read as themselves, whatever follows them. */
  lemma UserAgentFieldReads(k: string, x: string)
    requires k in UserAgentSpellings
    ensures UserAgentField(k + x) == Ok(k, x)
  {
    PrefixOfConcat(k, x);
    var j := if k == "user-agent" then 0 else 1;
    assert UserAgentSpellings[j] == k;
    FirstOfPicksByLead(UserAgentSpellings, k + x, j);
  }

  /** othermemberfield and othernongroupfield: the EMPTY field name, which always matches. */
  function EmptyField(s: string): (r: Reply<string>)
    ensures r.Ok? && r.value == [] && r.rest == s
  {
    Ok("", s)
  }

  function LowerChar(c: char): char {
    if 'A' <= c <= 'Z' then (c as int + 32) as char else c
  }

  /** `toLowerCase`, as it acts on the ASCII keyword spellings it is applied to. */
  function Lower(s: string): (r: string)
    ensures |r| == |s|
    ensures forall i :: 0 <= i < |s| ==> r[i] == LowerChar(s[i])
  {
    seq(|s|, i requires 0 <= i < |s| => LowerChar(s[i]))
  }

  /**
   The lower-cased text holds no ASCII capital, leaves every other character
   as it was, and lower-casing it again changes nothing.
   */
  lemma LowerCase(s: string)
    ensures forall i :: 0 <= i < |s| ==> !('A' <= Lower(s)[i] <= 'Z')
    ensures forall i :: 0 <= i < |s| && !('A' <= s[i] <= 'Z') ==> Lower(s)[i] == s[i]
    ensures forall i :: 0 <= i < |s| && 'A' <= s[i] <= 'Z' ==> 'a' <= Lower(s)[i] <= 'z'
    ensures Lower(Lower(s)) == Lower(s)
  {
  }

  /**
   On the four path keyword spellings, lower-casing gives `allow` exactly for
   `allow` and `Allow`, and `disallow` exactly for the other two.
   */
  lemma LowerPathKeyword(k: string)
    requires k in PathMemberSpellings
    ensures Lower(k) == "allow" <==> k == "allow" || k == "Allow"
    ensures Lower(k) == "disallow" <==> k == "disallow" || k == "Disallow"
  {
    assert Lower("allow") == "allow" && Lower("Allow") == "allow";
    assert Lower("disallow") == "disallow" && Lower("Disallow") == "disallow";
  }
}
