/**
 The top level of the robots.txt grammar (src/parsers.js, lines 133-160):
 `entries` groups the lines, `robotstxt` skips one leading byte-order mark,
 and `parse` demands that the whole document be read.
 */
module Document {
  import opened Combinators
  import opened Chars
  import opened Lexical
  import opened Records
  import opened Lines
  import opened Readings

  /** One unit of `entries`: a whole group, or one non-group or comment line. */
  datatype Entry = Group(records: seq<Record>) | Single(record: Record)

  /**
   A group: it opens with a user-agent record, and once a record that is not
   a user agent appears, no user agent follows.
   */
  predicate IsGroupShape(recs: seq<Record>) {
    && |recs| > 0 && IsUserAgent(recs[0])
    && forall i, j :: 0 <= i < j < |recs| && !IsUserAgent(recs[i]) ==> !IsUserAgent(recs[j])
  }

  lemma AgentsThenMembersShape(first: Record, agents: seq<Record>, members: seq<Record>)
    requires IsUserAgent(first)
    requires AllAgents(agents) && NoAgents(members)
    ensures IsGroupShape([first] + agents + members)
  {
    var recs := [first] + agents + members;
    assert forall i :: 0 <= i < |recs| ==> (IsUserAgent(recs[i]) <==> i <= |agents|);
  }

  predicate WellFormedEntry(e: Entry) {
    match e
    case Group(recs) => IsGroupShape(recs)
    case Single(r) => r.Comment? || (r.Directive? && r.field in {Sitemap, OtherNonGroupField})
  }

  /** The comment rule, as a record. */
  function CommentRecord(s: string): (r: Reply<Record>)
    ensures r.Ok? ==> |r.rest| < |s| && r.value.Comment?
  {
    match CommentText(s)
    case Ok(text, rest) => Ok(Comment(text), rest)
    case Fail => Fail
  }

  /** Every one of `recs` is a user-agent record. */
  predicate AllAgents(recs: seq<Record>) {
    forall i :: 0 <= i < |recs| ==> IsUserAgent(recs[i])
  }

  lemma AllAgentsCons(r: Record, recs: seq<Record>)
    requires IsUserAgent(r) && AllAgents(recs)
    ensures AllAgents([r] + recs)
  {
  }

  /** `manyA(startgroupline)`: the user-agent lines that follow the first one. */
  function AgentLines(s: string): (r: Run<Record>)
    ensures |r.rest| <= |s|
    ensures AllAgents(r.items)
    ensures StartGroupLine(r.rest).Fail?
    decreases |s|
  {
    match StartGroupLine(s)
    case Fail => Run([], s)
    case Ok(agent, rest) =>
      var more := AgentLines(rest);
      AllAgentsCons(agent, more.items);
      Run([agent] + more.items, more.rest)
  }

  /** `either([groupmemberline, nongroupline, comment])`: one line of a group's body. */
  function MemberLine(ext: Externals, s: string): (r: Reply<Record>)
    ensures r.Ok? ==> |r.rest| < |s| && !IsUserAgent(r.value)
  {
    Or(GroupMemberLine(ext, s), Or(NonGroupLine(ext, s), CommentRecord(s)))
  }

  /** None of `recs` is a user-agent record. */
  predicate NoAgents(recs: seq<Record>) {
    forall i :: 0 <= i < |recs| ==> !IsUserAgent(recs[i])
  }

  lemma NoAgentsCons(r: Record, recs: seq<Record>)
    requires !IsUserAgent(r) && NoAgents(recs)
    ensures NoAgents([r] + recs)
  {
  }

  /** `manyA(either([groupmemberline, nongroupline, comment]))`: a group's body. */
  function MemberLines(ext: Externals, s: string): (r: Run<Record>)
    ensures |r.rest| <= |s|
    ensures NoAgents(r.items)
    ensures MemberLine(ext, r.rest).Fail?
    decreases |s|
  {
    var first := MemberLine(ext, s);
    if first.Fail? then Run([], s)
    else
      var more := MemberLines(ext, first.rest);
      NoAgentsCons(first.value, more.items);
      Run([first.value] + more.items, more.rest)
  }

  /**
   A group: `many1A(startgroupline)` and then the group's body; the records
   are returned as one list, user agents first.
   */
  function GroupRule(ext: Externals, s: string): (r: Reply<seq<Record>>)
    ensures r.Ok? <==> StartGroupLine(s).Ok?
    ensures r.Ok? ==> |r.rest| < |s| && IsGroupShape(r.value)
  {
    match StartGroupLine(s)
    case Fail => Fail
    case Ok(first, afterFirst) =>
      var agents := AgentLines(afterFirst);
      var members := MemberLines(ext, agents.rest);
      var recs := [first] + agents.items + members.items;
      AgentsThenMembersShape(first, agents.items, members.items);
      Ok(recs, members.rest)
  }

  /** `either([group, nongroupline, comment])`: one unit of `entries`. */
  function EntryRule(ext: Externals, s: string): (r: Reply<Entry>)
    ensures r.Ok? ==> |r.rest| < |s| && WellFormedEntry(r.value)
  {
    match GroupRule(ext, s)
    case Ok(recs, rest) => Ok(Group(recs), rest)
    case Fail =>
      match NonGroupLine(ext, s)
      case Ok(line, rest) => Ok(Single(line), rest)
      case Fail =>
        match CommentRecord(s)
        case Ok(line, rest) => Ok(Single(line), rest)
        case Fail => Fail
  }

  predicate AllWellFormed(es: seq<Entry>) {
    forall i :: 0 <= i < |es| ==> WellFormedEntry(es[i])
  }

  lemma AllWellFormedCons(e: Entry, es: seq<Entry>)
    requires WellFormedEntry(e) && AllWellFormed(es)
    ensures AllWellFormed([e] + es)
  {
  }

  /**
   entries: `manyA` of the entry rule. It never fails, every unit it returns
   is well formed, and it stops only where no unit can start.
   */
  function Entries(ext: Externals, s: string): (r: Run<Entry>)
    ensures |r.rest| <= |s|
    ensures AllWellFormed(r.items)
    ensures EntryRule(ext, r.rest).Fail?
    decreases |s|
  {
    match EntryRule(ext, s)
    case Fail => Run([], s)
    case Ok(e, rest) =>
      var more := Entries(ext, rest);
      AllWellFormedCons(e, more.items);
      Run([e] + more.items, more.rest)
  }

  /** robotstxt: `p.maybe(BOM)`, then entries. */
  function RobotsTxt(ext: Externals, s: string): (r: Run<Entry>)
    ensures AllWellFormed(r.items)
  {
    match Bom(s)
    case Ok(_, rest) => Entries(ext, rest)
    case Fail => Entries(ext, s)
  }

  /** Every character of `s` is white space in the sense of `p.space`. */
  predicate AllSpace(ext: Externals, s: string) {
    forall i :: 0 <= i < |s| ==> ext.isSpace(s[i])
  }

  /**
   parse: `seqEOF(robotstxt, true)` — robotstxt, any white space, then the
   end of input — and the empty list whenever that fails.
   */
  function Parse(ext: Externals, s: string): (r: seq<Entry>)
    ensures var doc := RobotsTxt(ext, s);
      && (AllSpace(ext, doc.rest) ==> r == doc.items)
      && (!AllSpace(ext, doc.rest) ==> r == [])
    ensures AllWellFormed(r)
  {
    var doc := RobotsTxt(ext, s);
    var trailing := Span(ext.isSpace, doc.rest);
    if |trailing.rest| == 0 then doc.items else []
  }

  // ---------------------------------------------------------------------
  // Input order: grouping neither reorders nor drops a line.

  /** The records of one unit, in order. */
  function EntryRecords(e: Entry): seq<Record> {
    match e
    case Group(recs) => recs
    case Single(r) => [r]
  }

  /** The records of all units, in order. */
  function Flatten(es: seq<Entry>): seq<Record> {
    if |es| == 0 then [] else EntryRecords(es[0]) + Flatten(es[1..])
  }

  lemma FlattenCons(e: Entry, es: seq<Entry>)
    ensures Flatten([e] + es) == EntryRecords(e) + Flatten(es)
  {
    assert ([e] + es)[1..] == es;
  }

  function Prepend(items: seq<Record>, r: Run<Record>): Run<Record> {
    Run(items + r.items, r.rest)
  }

  /**
   A reference reading of a document, line by line, that remembers only
   whether a user-agent line has been seen: a user-agent line always wins,
   a member line is admitted only after one, then a non-group line, then a
   comment.
   */
  function Scan(ext: Externals, s: string, inGroup: bool): Run<Record>
    decreases |s|
  {
    match StartGroupLine(s)
    case Ok(agent, rest) => Prepend([agent], Scan(ext, rest, true))
    case Fail =>
      var member := if inGroup then GroupMemberLine(ext, s) else Fail;
      match member
      case Ok(line, rest) => Prepend([line], Scan(ext, rest, true))
      case Fail =>
        match NonGroupLine(ext, s)
        case Ok(line, rest) => Prepend([line], Scan(ext, rest, inGroup))
        case Fail =>
          match CommentRecord(s)
          case Ok(line, rest) => Prepend([line], Scan(ext, rest, inGroup))
          case Fail => Run([], s)
  }

  lemma PrependTwice(a: seq<Record>, b: seq<Record>, r: Run<Record>)
    ensures Prepend(a, Prepend(b, r)) == Prepend(a + b, r)
  {
    assert a + (b + r.items) == (a + b) + r.items;
  }

  /** Where no body line starts, the reference reading forgets the group it is in. */
  lemma ScanLeavesGroup(ext: Externals, s: string)
    requires MemberLine(ext, s).Fail?
    ensures Scan(ext, s, true) == Scan(ext, s, false)
  {
  }

  lemma {:induction false} MemberLinesScan(ext: Externals, s: string)
    ensures var m := MemberLines(ext, s);
      Scan(ext, s, true) == Prepend(m.items, Scan(ext, m.rest, false))
    decreases |s|
  {
    match MemberLine(ext, s)
    case Fail =>
      ScanLeavesGroup(ext, s);
    case Ok(line, rest) =>
      if StartGroupLine(s).Ok? {
        StartGroupLineExcludes(ext, s);
        assert false;
      }
      MemberLinesScan(ext, rest);
      var more := MemberLines(ext, rest);
      PrependTwice([line], more.items, Scan(ext, more.rest, false));
  }

  lemma {:induction false} AgentLinesScan(ext: Externals, s: string)
    ensures var a := AgentLines(s);
      Scan(ext, s, true) == Prepend(a.items, Scan(ext, a.rest, true))
    decreases |s|
  {
    match StartGroupLine(s)
    case Fail =>
    case Ok(agent, rest) =>
      AgentLinesScan(ext, rest);
      var more := AgentLines(rest);
      PrependTwice([agent], more.items, Scan(ext, more.rest, true));
  }

  lemma GroupScan(ext: Externals, s: string, inGroup: bool)
    requires GroupRule(ext, s).Ok?
    ensures var g := GroupRule(ext, s);
      Scan(ext, s, inGroup) == Prepend(g.value, Scan(ext, g.rest, false))
  {
    var first := StartGroupLine(s);
    var agents := AgentLines(first.rest);
    var members := MemberLines(ext, agents.rest);
    AgentLinesScan(ext, first.rest);
    MemberLinesScan(ext, agents.rest);
    PrependTwice(agents.items, members.items, Scan(ext, members.rest, false));
    PrependTwice([first.value], agents.items + members.items, Scan(ext, members.rest, false));
    ConcatAssoc([first.value], agents.items, members.items);
  }

  /** One unit of `entries` holds the records the reference reading gives for the same text. */
  lemma EntryScan(ext: Externals, s: string)
    requires EntryRule(ext, s).Ok?
    ensures var e := EntryRule(ext, s);
      Scan(ext, s, false) == Prepend(EntryRecords(e.value), Scan(ext, e.rest, false))
  {
    if GroupRule(ext, s).Ok? {
      GroupScan(ext, s, false);
    }
  }

  /** Where no unit starts, the reference reading reads nothing either. */
  lemma NoEntryScan(ext: Externals, s: string)
    requires EntryRule(ext, s).Fail?
    ensures Scan(ext, s, false) == Run([], s)
  {
  }

  /**
   Grouping preserves input order: flattening the units of `entries` gives
   exactly the records of the line-by-line reading, and both stop at the
   same place.
   */
  lemma {:induction false} EntriesPreserveOrder(ext: Externals, s: string)
    ensures Flatten(Entries(ext, s).items) == Scan(ext, s, false).items
    ensures Entries(ext, s).rest == Scan(ext, s, false).rest
    decreases |s|
  {
    match EntryRule(ext, s)
    case Fail =>
      NoEntryScan(ext, s);
    case Ok(e, rest) =>
      EntriesPreserveOrder(ext, rest);
      EntryScan(ext, s);
      FlattenCons(e, Entries(ext, rest).items);
  }

  // ---------------------------------------------------------------------
  // Where the grammar stops.

  /** Where no line of any kind starts, `entries` takes nothing. */
  lemma NoEntryWhereNoLine(ext: Externals, s: string)
    requires StartGroupLine(s).Fail? && NonGroupLine(ext, s).Fail? && CommentText(s).Fail?
    ensures Entries(ext, s) == Run([], s)
  {
    assert EntryRule(ext, s).Fail?;
  }

  /** Parsing the empty document yields the empty list. */
  lemma ParseEmpty(ext: Externals)
    ensures Parse(ext, "") == []
  {
    NoLineWithoutEol(ext, "");
    NoEntryWhereNoLine(ext, "");
  }

  /** `entries` alone does not skip a byte-order mark: it takes nothing at one. */
  lemma EntriesRejectBom(ext: Externals, s: string)
    ensures Entries(ext, [BOM] + s) == Run([], [BOM] + s)
  {
    var t := [BOM] + s;
    assert OptLws(t) == t by {
      OptLwsAtNonBlank(t);
    }
    assert CommentText(t).Fail?;
    NoDirectiveAt(ext, t);
    NoEntryWhereNoLine(ext, t);
  }

  /**
   One leading byte-order mark is skipped: the document with it parses to
   what the document without it parses to.
   */
  lemma BomTransparent(ext: Externals, s: string)
    requires |s| == 0 || s[0] != BOM
    ensures Parse(ext, [BOM] + s) == Parse(ext, s)
  {
    assert ([BOM] + s)[1..] == s;
    assert RobotsTxt(ext, [BOM] + s) == RobotsTxt(ext, s);
  }

  /** Only one byte-order mark is skipped: a second one fails the whole parse. */
  lemma SecondBomRejected(ext: Externals, s: string)
    ensures Parse(ext, [BOM] + ([BOM] + s)) == []
  {
    assert ([BOM] + ([BOM] + s))[1..] == [BOM] + s;
    EntriesRejectBom(ext, s);
  }

  /** A document whose first line opens with an upper-case keyword yields no entries. */
  lemma UpperCaseKeywordStopsEntries(ext: Externals, s: string)
    requires var t := OptLws(s); "USER-AGENT" <= t || "ALLOW" <= t || "DISALLOW" <= t || "SITEMAP" <= t
    ensures Entries(ext, s) == Run([], s)
  {
    UpperCaseKeywordsFail(ext, s);
    NoEntryWhereNoLine(ext, s);
  }

  /** ... and so, unless the whole document is white space, it parses to the empty list. */
  lemma UpperCaseDocumentRejected(ext: Externals, s: string)
    requires var t := OptLws(s); "USER-AGENT" <= t || "ALLOW" <= t || "DISALLOW" <= t || "SITEMAP" <= t
    requires !AllSpace(ext, s)
    ensures Parse(ext, s) == []
  {
    UpperCaseKeywordStopsEntries(ext, s);
    if Bom(s).Ok? {
      assert OptLws(s) == s by {
        OptLwsAtNonBlank(s);
      }
    }
  }

  lemma HashLeadIsNoDirective(ext: Externals, body: string)
    ensures StartGroupLine("#" + body).Fail? && NonGroupLine(ext, "#" + body).Fail?
  {
    HashLead(body);
    NoDirectiveAt(ext, "#" + body);
  }

  /** A line that opens with `#` is a standalone comment, read up to the first non-line character. */
  lemma CommentLineIsSingle(ext: Externals, c: string, x: string)
    requires forall i :: 0 <= i < |c| ==> IsAnychar(c[i])
    requires |x| == 0 || !IsAnychar(x[0])
    ensures EntryRule(ext, "#" + c + x) == Ok(Single(Comment(Trim(c))), x)
  {
    assert "#" + c + x == "#" + (c + x);
    CommentReads(c, x);
    HashLeadIsNoDirective(ext, c + x);
  }

  /**
   A line ending that is not followed by a space or tab starts no rule. (A
   lone CR followed by LF is the line ending CR LF, and is stated as such.)
   */
  lemma NoEntryAtBareLineEnd(ext: Externals, e: string, next: string)
    requires IsEolText(e) && !BlankAt(next, 0)
    requires !(e == "\r" && |next| > 0 && next[0] == '\n')
    ensures Entries(ext, e + next) == Run([], e + next)
  {
    var x := e + next;
    assert OptLws(x) == x by {
      LineEndStart(None, e, next);
      assert LineEnd(None, e) + next == x;
    }
    assert x[0] == e[0];
    assert CommentText(x).Fail?;
    NoDirectiveAt(ext, x);
    NoEntryWhereNoLine(ext, x);
  }

  /**
   A standalone comment leaves its line ending unread. When the next line
   does not begin with a space or tab, no rule can start at that line
   ending, so `entries` ends right after the comment.
   */
  lemma CommentLeavesLineEnd(ext: Externals, c: string, e: string, next: string)
    requires forall i :: 0 <= i < |c| ==> IsAnychar(c[i])
    requires IsEolText(e) && !BlankAt(next, 0)
    requires !(e == "\r" && |next| > 0 && next[0] == '\n')
    ensures Entries(ext, "#" + c + (e + next)) == Run([Single(Comment(Trim(c)))], e + next)
  {
    var x := e + next;
    var single := Single(Comment(Trim(c)));
    assert EntryRule(ext, "#" + c + x) == Ok(single, x) by {
      assert x[0] == e[0];
      CommentLineIsSingle(ext, c, x);
    }
    NoEntryAtBareLineEnd(ext, e, next);
    EntriesOfOne(ext, "#" + c + x, single, x);
  }

  /** One entry followed by a place where no rule starts. */
  lemma EntriesOfOne(ext: Externals, s: string, entry: Entry, rest: string)
    requires EntryRule(ext, s) == Ok(entry, rest)
    requires Entries(ext, rest) == Run([], rest)
    ensures Entries(ext, s) == Run([entry], rest)
  {
    assert [entry] + [] == [entry];
  }

  /**
   ... and so a standalone comment followed by a line that does not begin
   with a space or tab makes the whole document parse to the empty list.
   */
  lemma CommentThenLineRejected(ext: Externals, c: string, e: string, next: string)
    requires forall i :: 0 <= i < |c| ==> IsAnychar(c[i])
    requires IsEolText(e) && !BlankAt(next, 0)
    requires !(e == "\r" && |next| > 0 && next[0] == '\n')
    requires !AllSpace(ext, e + next)
    ensures Parse(ext, "#" + c + (e + next)) == []
  {
    CommentLeavesLineEnd(ext, c, e, next);
  }

  /**
   Inside a group, the member rule is tried before the non-group rule, so a
   `: text` line there is an OtherMemberField, never an OtherNonGroupField.
   */
  lemma GroupPrefersMemberField(ext: Externals, s: string)
    ensures var m := MemberLine(ext, s);
      m.Ok? ==> !(m.value.Directive? && m.value.field == OtherNonGroupField)
    ensures var n := NonGroupLine(ext, s);
      n.Ok? && n.value.field == OtherNonGroupField ==>
        MemberLine(ext, s) == Ok(Directive(OtherMemberField, n.value.value, n.value.comment), n.rest)
  {
    OtherLinesAgree(ext, s);
  }
}
