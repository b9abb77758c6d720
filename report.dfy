/** `printLogs`: the change report built from the keyword log and the link
    log. The model returns the message instead of printing it. */
module Report {
  import opened PyStr

  const KeywordHeader := "Keyword detection results:"
  const LinkHeader := "Link detection results:"
  const Rule := "=========================="
  const NoNewKeywords := "No new keywords detected"
  const NoNewLinks := "No new links detected"

  /** The report line by line: each section is its header, a rule and its
      entries when its log has any, and a blank line and a fixed notice
      otherwise. */
  function ReportLines(countLog: seq<string>, linkLog: seq<string>): seq<string> {
    KeywordLines(countLog) + LinkLines(linkLog)
  }

  /** `printLogs`, with `msg` built up by appending as the source does. */
  method PrintLogs(countLog: seq<string>, linkLog: seq<string>) returns (msg: string)
    ensures msg == Unlines(ReportLines(countLog, linkLog))
    ensures |msg| > 0 && msg[|msg| - 1] == '\n'
  {
    var newLine := "\n";
    msg := "";
    if |countLog| > 0 {
      msg := msg + newLine + newLine + KeywordHeader + newLine;
      msg := msg + Rule + newLine;
      msg := msg + Join(countLog) + newLine;
      OpeningSection(msg, countLog, KeywordHeader, Rule);
      assert msg == Unlines(KeywordLines(countLog));
    } else {
      msg := msg + newLine + NoNewKeywords + newLine;
      NoticeSection(msg, "", NoNewKeywords);
      assert msg == Unlines(KeywordLines(countLog));
    }
    ghost var keywordPart := msg;
    if |linkLog| > 0 {
      msg := msg + LinkHeader + newLine;
      msg := msg + Rule + newLine;
      msg := msg + Join(linkLog) + newLine;
      msg := msg + newLine;
      ClosingSection(msg, keywordPart, linkLog, LinkHeader, Rule);
      assert msg == keywordPart + Unlines(LinkLines(linkLog));
    } else {
      msg := msg + newLine + NoNewLinks;
      msg := msg + newLine;
      NoticeSection(msg, keywordPart, NoNewLinks);
      assert msg == keywordPart + Unlines(LinkLines(linkLog));
    }
    UnlinesAppend(KeywordLines(countLog), LinkLines(linkLog));
    UnlinesEndsWithNewline(ReportLines(countLog, linkLog));
  }

  function KeywordLines(countLog: seq<string>): seq<string> {
    if |countLog| > 0 then ["", "", KeywordHeader, Rule] + countLog else ["", NoNewKeywords]
  }

  function LinkLines(linkLog: seq<string>): seq<string> {
    if |linkLog| > 0 then [LinkHeader, Rule] + linkLog + [""] else ["", NoNewLinks]
  }

  /** The keyword section as appended, for any header and rule. */
  lemma OpeningSection(msg: string, entries: seq<string>, header: string, rule: string)
    requires entries != []
    requires msg == "" + "\n" + "\n" + header + "\n" + rule + "\n" + Join(entries) + "\n"
    ensures msg == Unlines(["", "", header, rule] + entries)
  {
    HeadedSection(["", "", header, rule], entries, []);
    UnlinesPair("", "");
    UnlinesPair(header, rule);
    UnlinesAppend(["", ""], [header, rule]);
    assert ["", ""] + [header, rule] == ["", "", header, rule];
    assert ["", "", header, rule] + entries + [] == ["", "", header, rule] + entries;
  }

  /** The link section as appended after `prefix`, for any header and rule. */
  lemma ClosingSection(msg: string, prefix: string, entries: seq<string>, header: string, rule: string)
    requires entries != []
    requires msg == prefix + header + "\n" + rule + "\n" + Join(entries) + "\n" + "\n"
    ensures msg == prefix + Unlines([header, rule] + entries + [""])
  {
    HeadedSection([header, rule], entries, [""]);
    UnlinesPair(header, rule);
    UnlinesOne("");
  }

  /** A section that is a blank line and a notice, appended after `prefix`. */
  lemma NoticeSection(msg: string, prefix: string, notice: string)
    requires msg == prefix + "\n" + notice + "\n"
    ensures msg == prefix + Unlines(["", notice])
  {
    UnlinesPair("", notice);
  }

  lemma {:induction false} UnlinesEndsWithNewline(xs: seq<string>)
    requires xs != []
    ensures |Unlines(xs)| > 0 && Unlines(xs)[|Unlines(xs)| - 1] == '\n'
  {
    if |xs| > 1 {
      UnlinesEndsWithNewline(xs[1..]);
    }
  }

  lemma FixedLinesHaveNoBreak()
    ensures NoBreak(KeywordHeader) && NoBreak(LinkHeader) && NoBreak(Rule)
    ensures NoBreak(NoNewKeywords) && NoBreak(NoNewLinks) && NoBreak("")
  {
    CharsNoBreak(KeywordHeader);
    CharsNoBreak(LinkHeader);
    CharsNoBreak(Rule);
    CharsNoBreak(NoNewKeywords);
    CharsNoBreak(NoNewLinks);
  }

  lemma UnlinesOne(x: string)
    ensures Unlines([x]) == x + "\n"
  {
    assert [x][1..] == [];
  }

  lemma UnlinesPair(x: string, y: string)
    ensures Unlines([x, y]) == x + "\n" + y + "\n"
  {
    assert [x, y][1..] == [y];
    UnlinesOne(y);
  }

  /** Unlines of a fixed head, some entries and a fixed tail. */
  lemma HeadedSection(head: seq<string>, entries: seq<string>, tail: seq<string>)
    ensures Unlines(head + entries + tail) == Unlines(head) + Unlines(entries) + Unlines(tail)
    ensures entries != [] ==> Unlines(entries) == Join(entries) + "\n"
  {
    UnlinesAppend(head, entries);
    UnlinesAppend(head + entries, tail);
    if entries != [] { JoinThenNewline(entries); }
  }

  /** No line of `xs` holds a line boundary. */
  predicate LinesNoBreak(xs: seq<string>) {
    forall k :: 0 <= k < |xs| ==> NoBreak(xs[k])
  }

  lemma LinesNoBreakAppend(a: seq<string>, b: seq<string>)
    requires LinesNoBreak(a) && LinesNoBreak(b)
    ensures LinesNoBreak(a + b)
  {
    forall k | 0 <= k < |a + b| ensures NoBreak((a + b)[k]) {
      if k < |a| { assert (a + b)[k] == a[k]; } else { assert (a + b)[k] == b[k - |a|]; }
    }
  }

  lemma KeywordLinesNoBreak(countLog: seq<string>)
    requires LinesNoBreak(countLog)
    ensures LinesNoBreak(KeywordLines(countLog))
  {
    FixedLinesHaveNoBreak();
    if |countLog| > 0 {
      LinesNoBreakAppend(["", "", KeywordHeader, Rule], countLog);
    } else {
      assert LinesNoBreak(["", NoNewKeywords]);
    }
  }

  lemma LinkLinesNoBreak(linkLog: seq<string>)
    requires LinesNoBreak(linkLog)
    ensures LinesNoBreak(LinkLines(linkLog))
  {
    FixedLinesHaveNoBreak();
    if |linkLog| > 0 {
      LinesNoBreakAppend([LinkHeader, Rule], linkLog);
      LinesNoBreakAppend([LinkHeader, Rule] + linkLog, [""]);
    } else {
      assert LinesNoBreak(["", NoNewLinks]);
    }
  }

  /** Where each header, or the notice in its stead, sits in the report:
      each header is present exactly when its log is non-empty. */
  lemma ReportLayout(countLog: seq<string>, linkLog: seq<string>)
    ensures ReportLines(countLog, linkLog)[1] == (if |countLog| > 0 then "" else NoNewKeywords)
    ensures |countLog| > 0 ==> ReportLines(countLog, linkLog)[2] == KeywordHeader
    ensures var k := if |countLog| > 0 then 4 + |countLog| else 2;
      ReportLines(countLog, linkLog)[k] == (if |linkLog| > 0 then LinkHeader else "")
      && (|linkLog| == 0 ==> ReportLines(countLog, linkLog)[k + 1] == NoNewLinks)
  {
    var kl := KeywordLines(countLog);
    var ll := LinkLines(linkLog);
    var lines := kl + ll;
    assert lines[1] == kl[1];
    assert |countLog| > 0 ==> lines[2] == kl[2];
    assert lines[|kl|] == ll[0];
    assert |linkLog| == 0 ==> lines[|kl| + 1] == ll[1];
  }

  /** Read back by lines, the report gives its lines, provided no log entry
      holds a line boundary of its own. */
  lemma ReportReadsBack(countLog: seq<string>, linkLog: seq<string>)
    requires forall k :: 0 <= k < |countLog| ==> NoBreak(countLog[k])
    requires forall k :: 0 <= k < |linkLog| ==> NoBreak(linkLog[k])
    ensures SplitLines(Unlines(ReportLines(countLog, linkLog))) == ReportLines(countLog, linkLog)
  {
    KeywordLinesNoBreak(countLog);
    LinkLinesNoBreak(linkLog);
    LinesNoBreakAppend(KeywordLines(countLog), LinkLines(linkLog));
    SplitUnlines(ReportLines(countLog, linkLog));
  }
}
