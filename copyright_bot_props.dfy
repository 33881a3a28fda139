/** What the copyright bot's classifier and log promise: flagging ignores case and word
    boundaries, the log is exactly the flagged messages in arrival order, `/status` shows
    its length and `/reports` lists every entry under its number. */
module CopyrightBotProps {
  import opened Wrappers
  import opened Text
  import opened CopyrightBot

  // ---------------------------------------------------------------------------
  // The classifier
  // ---------------------------------------------------------------------------

  lemma LowerIdempotent(s: string)
    ensures Lower(Lower(s)) == Lower(s)
  {
  }

  /** Flagging ignores case: a text is flagged exactly when its lower-cased form is. */
  lemma FlagIgnoresCase(text: string)
    ensures IsFlagged(Lower(text)) == IsFlagged(text)
  {
    LowerIdempotent(text);
  }

  /** A keyword is found wherever it stands and in whatever case it is written, inside a
      longer word too: there is no word-boundary check. */
  lemma FlaggedInContext(before: string, word: string, after: string)
    requires Lower(word) in Keywords
    ensures IsFlagged(before + word + after)
  {
    var k := Lower(word);
    var text := before + word + after;
    LowerConcat(before + word, after);
    LowerConcat(before, word);
    assert Lower(text)[|before|..|before| + |k|] == k;
    assert OccursAt(Lower(text), k, |before|);
  }

  /** "stealthy" and every other word that starts with "steal" is flagged. */
  lemma LongerWordFlagged(rest: string)
    ensures IsFlagged("steal" + rest)
  {
    assert Lower("steal") == "steal";
    FlaggedInContext("", "steal", rest);
    assert "" + "steal" + rest == "steal" + rest;
  }

  /** A keyword written in capitals is flagged, as in "this is COPYRIGHT infringement". */
  lemma CapitalisedKeywordFlagged(before: string, after: string)
    ensures IsFlagged(before + "COPYRIGHT" + after)
  {
    assert Lower("COPYRIGHT") == "copyright";
    FlaggedInContext(before, "COPYRIGHT", after);
  }

  /** Every keyword has at least five letters, so shorter texts are never flagged. */
  lemma ShortTextNotFlagged(text: string)
    requires |text| < 5
    ensures !IsFlagged(text)
  {
    forall k, i | k in Keywords ensures !OccursAt(Lower(text), k, i) {
      assert |k| >= 5;
    }
  }

  // ---------------------------------------------------------------------------
  // The log
  // ---------------------------------------------------------------------------

  /** The log is append-only: whatever the handler sees, the old entries stay as they were,
      in front, and the handler adds exactly the flagged messages' entries, in order. */
  lemma {:induction false} LogIsFlaggedHistory(logs: seq<Report>, msgs: seq<Incoming>)
    ensures LogAfter(logs, msgs) == logs + FlaggedReports(msgs)
    decreases |msgs|
  {
    if msgs != [] {
      var m := msgs[0];
      var mine: seq<Report> := if IsFlagged(m.text) then [ReportOf(m)] else [];
      var later := FlaggedReports(msgs[1..]);
      assert Record(logs, m) == logs + mine;
      assert LogAfter(logs, msgs) == LogAfter(logs + mine, msgs[1..]);
      LogIsFlaggedHistory(logs + mine, msgs[1..]);
      assert FlaggedReports(msgs) == mine + later;
      assert (logs + mine) + later == logs + (mine + later);
    }
  }

  /** Every logged entry stores a flagged text, the one of some message that was seen, and
      there are never more entries than messages. */
  lemma {:induction false} FlaggedReportsCameFromFlaggedMessages(msgs: seq<Incoming>)
    ensures |FlaggedReports(msgs)| <= |msgs|
    ensures forall j :: 0 <= j < |FlaggedReports(msgs)| ==>
              IsFlagged(FlaggedReports(msgs)[j].message) &&
              exists i :: 0 <= i < |msgs| && FlaggedReports(msgs)[j] == ReportOf(msgs[i])
    decreases |msgs|
  {
    if msgs != [] {
      FlaggedReportsCameFromFlaggedMessages(msgs[1..]);
      var mine: seq<Report> := if IsFlagged(msgs[0].text) then [ReportOf(msgs[0])] else [];
      var rest := FlaggedReports(msgs[1..]);
      assert FlaggedReports(msgs) == mine + rest;
      forall j | 0 <= j < |mine + rest|
        ensures IsFlagged((mine + rest)[j].message)
        ensures exists i :: 0 <= i < |msgs| && (mine + rest)[j] == ReportOf(msgs[i])
      {
        if j < |mine| {
          assert (mine + rest)[j] == ReportOf(msgs[0]);
        } else {
          assert (mine + rest)[j] == rest[j - |mine|];
          var i :| 0 <= i < |msgs[1..]| && rest[j - |mine|] == ReportOf(msgs[1..][i]);
          assert msgs[1..][i] == msgs[i + 1];
        }
      }
    }
  }

  /** `/status` after a run of messages shows the old count plus the number of flagged
      messages; the number can be read back from the reply. */
  lemma StatusCountsFlaggedMessages(logs: seq<Report>, msgs: seq<Incoming>)
    ensures var n := |LogAfter(logs, msgs)|;
            && n == |logs| + |FlaggedReports(msgs)|
            && StatusText(n)[..|StatusPrefix|] == StatusPrefix
            && ParseInt(StatusText(n)[|StatusPrefix|..]) == Some(n)
  {
    LogIsFlaggedHistory(logs, msgs);
    var n := |LogAfter(logs, msgs)|;
    ParseDecimal(n, "");
    assert StatusText(n)[|StatusPrefix|..] == DecimalString(n) + "";
  }

  // ---------------------------------------------------------------------------
  // `/reports`
  // ---------------------------------------------------------------------------

  lemma NumberBeforeDot(i: nat, rest: string)
    requires |rest| > 0 && rest[0] == '.'
    ensures ParseInt(DecimalString(i) + rest) == Some(i)
  {
    ParseDecimal(i, rest);
  }

  /** `parseInt` reads a listed line's number back from the line. */
  lemma LineNumberReadsBack(i: nat, r: Report)
    ensures ParseInt(Line(i, r)) == Some(i)
  {
    var tail := r.user + ": \"" + r.message + "\"\n";
    var rest := ". " + tail;
    var line := Line(i, r);
    assert line == DecimalString(i) + rest;
    NumberBeforeDot(i, rest);
  }

  /** With an empty log `/reports` shows only its header. */
  lemma ReportsOfEmptyLog()
    ensures ReportsText([]) == ReportsHeader
  {
  }

  /** Logging one more entry adds one line at the end of `/reports`, numbered after the
      others. */
  lemma ReportsAppend(logs: seq<Report>, r: Report)
    ensures ReportsText(logs + [r]) == ReportsText(logs) + Line(|logs| + 1, r)
  {
    LinesFromSplit(logs, [r], 1);
  }

  lemma OccursInMiddle(a: string, b: string, c: string)
    ensures OccursAt(a + b + c, b, |a|)
  {
    assert (a + b + c)[|a|..|a| + |b|] == b;
  }

  /** Entry `i` of the log is listed as line `i + 1`, after the lines of the entries before
      it and before those after it. */
  lemma ReportsListEntry(logs: seq<Report>, i: nat)
    requires i < |logs|
    ensures ReportsText(logs) ==
              ReportsHeader + LinesFrom(logs[..i], 1) + Line(i + 1, logs[i])
              + LinesFrom(logs[i + 1..], i + 2)
  {
    LinesAround(logs, i, 1);
    var before := ReportsHeader + LinesFrom(logs[..i], 1);
    assert ReportsText(logs) == before + Line(i + 1, logs[i]) + LinesFrom(logs[i + 1..], i + 2);
  }

  /** So every entry's line occurs in the `/reports` text. */
  lemma ReportsShowEntry(logs: seq<Report>, i: nat)
    requires i < |logs|
    ensures OccursAt(ReportsText(logs), Line(i + 1, logs[i]),
                     |ReportsHeader| + |LinesFrom(logs[..i], 1)|)
  {
    var before := ReportsHeader + LinesFrom(logs[..i], 1);
    var line := Line(i + 1, logs[i]);
    var after := LinesFrom(logs[i + 1..], i + 2);
    ReportsListEntry(logs, i);
    OccursInMiddle(before, line, after);
  }

  lemma LinesAround(logs: seq<Report>, i: nat, start: nat)
    requires i < |logs|
    ensures LinesFrom(logs, start) ==
              LinesFrom(logs[..i], start) + Line(start + i, logs[i]) + LinesFrom(logs[i + 1..], start + i + 1)
  {
    LinesFromSplit(logs[..i], logs[i..], start);
    assert logs[..i] + logs[i..] == logs;
    assert logs[i..][1..] == logs[i + 1..];
    assert logs[i..][0] == logs[i];
  }
}
