# robots.txt grammar, modelled in Dafny

This project models the robots.txt grammar of `src/parsers.js`. That file is a
PEG-style parser-combinator grammar built on the `eulalie` library. It follows
the ABNF quoted in its header, which comes from Google's robots.txt
documentation. The model has five layers, one module each:

- `Combinators` (`combinators.dfy`) re-states the few `eulalie` combinators
  the grammar uses as pure functions from the remaining input to a `Reply`.
  A reply is either a value with the unconsumed input, or a failure.
  - Ordered choice (`Or`) retries on the original input.
  - Repetition is greedy and never fails.
- `Chars` (`chars.dfy`) holds the character predicates `isCTL`, `isBOM`,
  `isAnychar` and `isValuechar`, and JavaScript's `trim()`.
- `Lexical` (`lexical.dfy`) holds the lexical primitives:
  - `EOL`, `LWS`, `BOM`;
  - `textvalue`/`agentvalue`, `urlvalue`, `pathvalue`;
  - the four field-name recognisers.
- `Records` and `Lines` (`records.dfy`, `lines.dfy`) hold the record datatype
  and the line grammars `comment`, `nongroupline`, `groupmemberline` and
  `startgroupline`.
- `Readings` (`readings.dfy`) describes a well-formed directive line by its
  parts (leading blanks, field name, colon, value, optional comment, line
  ending). For every such line it proves what each line grammar reads.
- `Document` (`document.dfy`) holds `entries`, `robotstxt`, and `parse`
  (which is `seqEOF(robotstxt, true)` falling back to `[]`). It also holds a
  line-by-line reference scanner against which `entries` is proved to keep
  the input order.
- `Vectors` (`vectors.dfy`) states the cases of the project's unit tests
  (`test/parsers.js`) as lemmas about the model.

How the source's objects map to the model:

- A line grammar's result object (`{ allow: { value, comment } }` and so on)
  is a `Directive(field, value, comment)` record. A standalone comment is a
  `Comment(text)` record.
- An `entries` unit is a `Group` of records or a `Single` record.
- A comment that `p.maybe` did not find is `None`; the source leaves the
  `comment` key undefined.

The behaviours the model keeps, because the code has them:

- LWS needs at least one space or tab after its optional line ending. This
  is `p.many1` at `src/parsers.js:45`. So `""` and `"\n"` are not LWS, even
  though some of the test expectations (`test/parsers.js:75-76`) accept
  them. The model follows the code.
- Keywords are recognised only in the listed spellings (`src/parsers.js:58`,
  `60`, `124`), not case-insensitively:
  - `User-agent` and `user-agent` are accepted, `User-Agent` is not.
  - `ALLOW` is rejected.
  - The lower-case tag of a path directive comes from `toLowerCase` on one
    of the four accepted spellings.
- The "other" fields match the empty field name (`src/parsers.js:57`, `59`).
  So an "other" line is `[LWS] ":" [LWS] textvalue`, and a keyword that
  matched but whose value failed makes the whole line fail.
- A standalone `comment` does not consume its line ending
  (`src/parsers.js:63-67`).
  - The next `entries` iteration starts at that line ending.
  - LWS cannot match a line ending without a blank after it.
  - So `entries` stops there, and `parse` returns `[]` unless only white
    space follows.
  - The ABNF in the file's header has the same shape (`comment = [LWS] "#"
    *anychar`), so this is how the grammar is written, not a slip in the
    code. `Document.CommentLeavesLineEnd` and
    `Document.CommentThenLineRejected` state it.

## Model

| member | source | states |
|---|---|---|
| Chars.CharClasses | src/parsers.js:37-40 | isCTL holds exactly below U+0020 and at U+007F. An anychar is never a control character, CR, LF or TAB. A valuechar is exactly an anychar other than `#`. A blank is a valuechar only when it is a space. |
| Chars.Trim | src/parsers.js:66 | `trim()` returns the input with the JavaScript white space removed from both ends, and nothing else removed. |
| Chars.TrimIdempotent | src/parsers.js:66 | Trimming twice is trimming once. |
| Lexical.Eol | src/parsers.js:42 | EOL matches exactly when the input starts with CR or LF. It consumes one of CR LF, CR or LF, and it consumes CR LF as one unit whenever the input starts with it. |
| Lexical.EolReads | src/parsers.js:42 | EOL reads exactly the line ending in front of the rest, unless that is a lone CR followed by LF (which is the line ending CR LF). |
| Lexical.Lws | src/parsers.js:43-46 | LWS matches exactly when a space or tab follows an optional line ending. It consumes a non-empty prefix and leaves no blank at the front of the rest. Only its first two characters may be line-ending characters. |
| Lexical.LwsReads | src/parsers.js:43-46 | On a line ending (or none) followed by a run of blanks, LWS consumes the line ending and the whole run, and leaves the rest untouched. |
| Lexical.Bom | src/parsers.js:47 | BOM matches exactly one leading U+FEFF. |
| Lexical.TextValue | src/parsers.js:50 | textvalue never fails and consumes a prefix of value characters and spaces. It stops only at the end of input, at a `#` or control character, or at U+2028 or U+2029. |
| Lexical.TextValueReads | src/parsers.js:50 | textvalue reads a whole run of value characters and leaves the rest, when the rest does not start with a value character. |
| Lexical.AgentValueReads | src/parsers.js:62 | agentvalue reads an agent name exactly as textvalue reads a value. |
| Lexical.UrlValue | src/parsers.js:51 | urlvalue, the external absolute-URL rule, consumes a prefix of its input when it matches. |
| Lexical.PathValue | src/parsers.js:52-55 | pathvalue matches exactly when the input starts with `/` and the external path rule matches after it. Its value starts with `/`, and it consumes a non-empty prefix. |
| Lexical.PathValueReads | src/parsers.js:52-55 | Where the path rule reads `p` and leaves `x`, pathvalue on `/` followed by that text reads `/p` and leaves `x`. |
| Lexical.FirstOf | src/parsers.js:58-60 | A choice of literal spellings matches exactly when the input starts with one of them. It yields that spelling and the text after it. |
| Lexical.FirstOfPicks | src/parsers.js:58-60 | The choice yields the first spelling, in list order, that the input starts with. |
| Lexical.PathMemberFieldReads | src/parsers.js:60 | Each of `disallow`, `allow`, `Disallow` and `Allow` is read as itself, whatever follows it. |
| Lexical.UrlNonGroupFieldReads | src/parsers.js:58 | `sitemap` and `Sitemap` are each read as themselves, whatever follows them. |
| Lexical.UserAgentFieldReads | src/parsers.js:124 | `user-agent` and `User-agent` are each read as themselves, whatever follows them. |
| Lexical.LowerCase | src/parsers.js:99 | A lower-cased text holds no ASCII capital. Every other character is unchanged, each capital becomes a lower-case letter, and lower-casing again changes nothing. |
| Lexical.LowerPathKeyword | src/parsers.js:99-103 | Of the four path keyword spellings, exactly `allow` and `Allow` lower-case to `allow`, and exactly `disallow` and `Disallow` lower-case to `disallow`. |
| Lines.CommentText | src/parsers.js:63-67 | comment matches exactly when the input, after optional LWS, starts with `#`. It consumes input, stops at a control character or line ending, and its text is trimmed and free of control characters. |
| Lines.CommentReads | src/parsers.js:63-67 | A `#` followed by a run of line characters reads as that run, trimmed, and leaves the input from the first control character or line ending. |
| Lines.MaybeComment | src/parsers.js:88 | The optional trailing comment never fails. It is present exactly when the comment rule matches, and then it carries that rule's text and rest. When it is absent, nothing is consumed. |
| Lines.Colon | src/parsers.js:73-75 | `[LWS] ":" [LWS]` matches exactly when the input, after optional LWS, starts with `:`. |
| Lines.SitemapField | src/parsers.js:71-77 | A matched sitemap field is tagged Sitemap. |
| Lines.PathMemberDirective | src/parsers.js:97-105 | A matched path field is tagged Allow or Disallow, and its value starts with `/`. |
| Lines.OtherField | src/parsers.js:78-84 | A matched empty-name field keeps its tag, and its value is a text value. |
| Lines.FinishLine | src/parsers.js:87-91 | A line finished by `[comment] EOL` keeps its field's tag and value, and its comment is trimmed text. |
| Lines.NonGroupLine | src/parsers.js:68-92 | A non-group line consumes input and is a Sitemap or OtherNonGroupField directive. Its text value and comment are well formed. |
| Lines.GroupMemberLine | src/parsers.js:93-120 | A member line is an Allow, Disallow or OtherMemberField directive. Allow and Disallow values start with `/`. |
| Lines.StartGroupLine | src/parsers.js:121-132 | A start-of-group line is a user-agent directive with a text value. |
| Lines.NonGroupLineEndsInEol | src/parsers.js:68-92 | A non-group line consumes a prefix that ends in a line ending. |
| Lines.GroupMemberLineEndsInEol | src/parsers.js:93-120 | A member line consumes a prefix that ends in a line ending. |
| Lines.StartGroupLineEndsInEol | src/parsers.js:121-132 | A start-of-group line consumes a prefix that ends in a line ending. |
| Lines.NoLineWithoutEol | src/parsers.js:68-132 | On text with no CR or LF, every directive line fails. |
| Lines.PathKeywordCommits | src/parsers.js:96-113 | Once a path keyword matches, the member line is a path directive or fails. It never falls back to the empty-name field. |
| Lines.SitemapKeywordCommits | src/parsers.js:70-85 | Once `sitemap` matches, the non-group line is a Sitemap directive or fails. |
| Lines.OtherFieldsHaveEmptyName | src/parsers.js:57-59 | An "other" line has, after optional LWS, `[LWS] ":"` where a field name would be. |
| Lines.OtherLinesAgree | src/parsers.js:68-120 | A line is an OtherMemberField exactly when it is an OtherNonGroupField. Both readings have the same value, comment and rest. |
| Lines.StartGroupLineExcludes | src/parsers.js:121-132 | Where a start-of-group line matches, the member, non-group and comment rules all fail. |
| Lines.NoDirectiveAt | src/parsers.js:68-132 | A line whose field position starts with neither `:` nor a keyword's first letter is no directive line. |
| Lines.PathTagFollowsKeyword | src/parsers.js:99-103 | A path directive is Allow exactly when its keyword is `allow` or `Allow`. |
| Lines.CapitalAllowAgrees | src/parsers.js:60 | `Allow` lines read exactly like `allow` lines. |
| Lines.CapitalDisallowAgrees | src/parsers.js:60 | `Disallow` lines read exactly like `disallow` lines. |
| Lines.CapitalisedSitemapAgrees | src/parsers.js:58 | `Sitemap` lines read exactly like `sitemap` lines. |
| Lines.CapitalisedUserAgentAgrees | src/parsers.js:124 | `User-agent` lines read exactly like `user-agent` lines. |
| Lines.UpperCaseKeywordsFail | src/parsers.js:68-132 | A line spelling a keyword in capitals (USER-AGENT, ALLOW, DISALLOW, SITEMAP) fails in all four line rules. |
| Readings.ColonReads | src/parsers.js:73-75 | `[LWS] ":" [LWS]` on blanks, a colon and blanks reads all three and stops where the value starts. |
| Readings.MaybeCommentReads | src/parsers.js:88 | After a line's value, the optional comment reads the line's `#` comment, trimmed, and leaves its line ending. On a line without a comment it reads nothing. |
| Readings.FinishLineReads | src/parsers.js:87-91 | `[comment] EOL` after a field and value gives the record with that field, value and trimmed comment, and leaves the text after the line ending. |
| Readings.StartGroupLineReads | src/parsers.js:121-132 | Every well-formed `user-agent` line, in either spelling, with or without a comment, reads as the user-agent record with its name and trimmed comment. It leaves the text after its line ending. |
| Readings.SitemapLineReads | src/parsers.js:68-92 | Every well-formed `sitemap` line whose URL the absolute-URL rule reads, with or without a comment, reads as the Sitemap record with that URL and trimmed comment. It leaves the text after its line ending. |
| Readings.PathLineReads | src/parsers.js:93-120 | Every well-formed `allow` or `disallow` line, in any listed spelling, whose path the path rule reads, with or without a comment, reads as an Allow or Disallow record as the keyword says. The record carries the path and trimmed comment, and the line leaves the text after its line ending. |
| Readings.EmptyNameLineReads | src/parsers.js:68-120 | Every well-formed `: value` line, with or without a comment, reads as OtherMemberField in the member rule and as OtherNonGroupField in the non-group rule. Both records carry the value and trimmed comment, and both leave the text after the line ending. |
| Document.AgentLines | src/parsers.js:135 | The run of start-of-group lines holds only user-agent records, and it stops where no further start-of-group line matches. |
| Document.MemberLine | src/parsers.js:136 | A line inside a group consumes input and is never a user-agent record. |
| Document.MemberLines | src/parsers.js:136 | The lines of a group after its agents hold no user-agent record, and they stop where no member line matches. |
| Document.GroupRule | src/parsers.js:134-138 | A group matches exactly when a start-of-group line does. Its records are one or more user agents followed by records none of which is a user agent. |
| Document.EntryRule | src/parsers.js:133-141 | Each successful entry consumes at least one character and is a well-formed group, or a single comment, Sitemap or OtherNonGroupField record. |
| Document.Entries | src/parsers.js:133-141 | entries never fails. Every unit is well formed, and it stops exactly where no entry matches. |
| Document.RobotsTxt | src/parsers.js:142-145 | robotstxt never fails, and every unit is well formed. |
| Document.Parse | src/parsers.js:148-160 | parse returns the entries when only white space is left after them, and `[]` otherwise. |
| Document.EntriesPreserveOrder | src/parsers.js:133-141 | The records of the entries, in order, are exactly those of the line-by-line reference scan, and both stop at the same point. |
| Document.GroupPrefersMemberField | src/parsers.js:136 | Inside a group an empty-name line is never an OtherNonGroupField. Where it would be one outside a group, it is the OtherMemberField with the same value, comment and rest. |
| Document.NoEntryWhereNoLine | src/parsers.js:133-141 | Where no line rule matches, entries consumes nothing. |
| Document.ParseEmpty | src/parsers.js:160 | parse of the empty text is `[]`. |
| Document.EntriesRejectBom | src/parsers.js:133-141 | entries alone consumes nothing of a text that starts with U+FEFF. |
| Document.BomTransparent | src/parsers.js:142-145 | A single leading U+FEFF does not change the parse. |
| Document.CommentRecord | src/parsers.js:140 | A standalone comment entry consumes input and is a Comment record. |
| Document.SecondBomRejected | src/parsers.js:142-160 | A second leading U+FEFF makes parse return `[]`. |
| Document.UpperCaseKeywordStopsEntries | src/parsers.js:133-141 | entries consumes nothing of a text whose first line spells a keyword in capitals. |
| Document.UpperCaseDocumentRejected | src/parsers.js:148-160 | Such a text, unless it is all white space, parses to `[]`. |
| Document.CommentLineIsSingle | src/parsers.js:139-140 | A line starting with `#` is one Single comment entry, trimmed. |
| Document.NoEntryAtBareLineEnd | src/parsers.js:133-141 | At any line ending (CR LF, CR or LF) not followed by a blank, entries consumes nothing. A lone CR followed by LF is the line ending CR LF. |
| Document.CommentLeavesLineEnd | src/parsers.js:63-67 | After a standalone comment line ending in CR LF, CR or LF, entries has read the one comment and stops at that line's line ending. |
| Document.CommentThenLineRejected | src/parsers.js:148-160 | A standalone comment followed, after any line ending, by a line that does not start with a blank parses to `[]`, unless only white space follows. |
| Vectors.EolVectors | test/parsers.js:61-71 | CR, LF and CR LF are line endings, and the empty text is not. |
| Vectors.LwsRejects | test/parsers.js:100-103 | The empty text, `\n` and `a` are not LWS. |
| Vectors.LwsAfterCrLf | test/parsers.js:97 | `\r\n ` is one LWS. |
| Vectors.LwsAfterLf | test/parsers.js:95 | `\n  \t` is one LWS, which stops at the next non-blank. |
| Vectors.KeywordPrefixVectors | test/parsers.js:169-189 | `sitemaps`, `allows` and `disallows` match only their keyword and leave `s`. |
| Vectors.TextValueVector | test/parsers.js:219 | textvalue on `bar #h3y!` keeps the trailing space and stops at `#`. |
| Vectors.CommentVector | test/parsers.js:219 | The comment `#h3y!` reads as `h3y!` and leaves the line ending. |
| Vectors.CommentToEndVector | test/parsers.js:199 | `#s0me comment!` reads as `s0me comment!`. |
| Vectors.CommentAfterLwsVector | test/parsers.js:200 | A comment after a line ending and blanks reads the same. |
| Vectors.EmptyNameLineVector | test/parsers.js:219-241 | `: bar #h3y!` is OtherNonGroupField `bar ` with comment `h3y!`, and as a member line it is OtherMemberField. |
| Vectors.StartGroupVector | test/parsers.js:257 | `user-agent: curl` is a user-agent record with value `curl` and no comment. |
| Vectors.UnterminatedLineVectors | test/parsers.js:222-264 | Lines without their line ending fail. |
| Vectors.WrongKindVectors | test/parsers.js:225-265 | `sitemap` lines fail as member and start-of-group lines, and `allow` lines fail as non-group and start-of-group lines. |
| Vectors.PathNeedsSlash | test/parsers.js:249 | `allow` with a value that does not start with `/` fails, without falling back to the empty-name field. |
| Vectors.AllowLineVector | test/parsers.js:234 | `allow: /static/*.js` is an Allow record with that path, given a path rule that reads the text after the slash. |
| Vectors.EmptyNameNoCommentVector | test/parsers.js:218 | `: f00` is OtherNonGroupField `f00` with no comment, and as a member line it is OtherMemberField. |
| Vectors.AllowCommentVector | test/parsers.js:235 | `allow: /static/*.js #h3y!` is an Allow record with that path and comment `h3y!`, given a path rule that stops at the blank. |
| Vectors.DisallowCommentVector | test/parsers.js:238 | `disallow: /static/*.js #h3y!` is a Disallow record with that path and comment `h3y!`, given a path rule that stops at the blank. |
| Vectors.SitemapCommentVector | test/parsers.js:216 | `sitemap: <url> #h3y!` is a Sitemap record with that URL and comment `h3y!`, given a URL rule that reads the URL and stops at the blank. |

## Left out

- The URL grammar library's `path` and `absoluteURL` rules (`src/parsers.js:5-6`) are parameters. The only thing known about them is that they consume a prefix of their input.
- `eulalie`'s `p.space` class, used by `seqEOF` (`src/parsers.js:153`), is a parameter predicate.
- The `eulalie` library is re-stated as a few combinators, not transcribed.
  - Its stream positions, error messages and exceptions are left out. A failure is one `Fail` value.
  - `parse`'s `|| []` fallback is modelled, and so is the empty-array result.
- `seqEOF` without trailing spaces, which the tests apply to single rules, is not a member. Each line rule's `rest` states what it leaves.
- The nonstandard grammar (`crawldelayline`, `hostline`, `entriesNS`, `robotstxtNS`, `parseNS`), `setStrictLWS` and the flattening done by `index.js` appear only in the tests. They have no source here, so they are not modelled.
- The flexible-LWS test expectations (`test/parsers.js:75-76`) contradict the source's `many1` and are not followed.
- JavaScript works on UTF-16 code units. Without the `u` flag, `/^.$/` matches any single code unit except LF, CR, U+2028 and U+2029, so each half of a surrogate pair passes `isAnychar` on its own. A Dafny `char` is a whole code point, so the model tests the pair as one character, with the same outcome on well-formed text. The line terminators U+2028 and U+2029 are excluded from anychar and valuechar, as `/^.$/` excludes them.
- Lines.CapitalAllowAgrees: lower-casing a whole valid document would also lower-case values and comments. So the "lower-casing leaves the result unchanged" expectation is stated per keyword: the capitalised spelling reads exactly like the lower-case one. The whole-document form does not hold in general.
- Lexical.LowerCase: `toLowerCase` is modelled on ASCII capitals only. It is only ever applied to the four ASCII keyword spellings.
- Readings.StartGroupLineReads, Readings.SitemapLineReads, Readings.PathLineReads, Readings.EmptyNameLineReads: a line without a comment is read only when the next line does not start with a space or tab. Otherwise LWS runs on across the line ending (`Lexical.LwsReads`), so the next line continues this one and can supply its comment.
- Readings.SitemapLineReads: the URL must start with neither a blank nor a line ending. An absolute URL starts with its scheme, so this excludes no URL the rule reads.
- Lines.SitemapField, Lines.PathMemberDirective, Lines.OtherField, Lines.FinishLine, Lines.NonGroupLine, Lines.GroupMemberLine, Lines.StartGroupLine: their own contracts give the shape of any reply. What each reads on a well-formed line is stated by the `Readings` lemmas.
- The test fixtures (`robots.txt`, `expected.json`) and file I/O are not part of this model. So the whole-document test cases are stated as general lemmas about `Parse` and `Entries`, not as concrete documents.
- Vectors.AllowLineVector: the test's URL path rule is external. The vector therefore requires the behaviour of that rule on `static/*.js` rather than proving it.
