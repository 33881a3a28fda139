/** The copyright bot (copyright_bot/index.js): a keyword classifier over lower-cased text,
    an append-only log of the messages it flags, a count of that log (`/status`) and a
    numbered listing of it (`/reports`).

    The clock is an input: `date` is the ISO-8601 timestamp string the handler stores. */
module CopyrightBot {
  import opened Wrappers
  import opened Text

  /** The words whose occurrence flags a message. */
  const Keywords: seq<string> := ["copyright", "infringement", "steal", "unauthorized"]

  // ---------------------------------------------------------------------------
  // The classifier
  // ---------------------------------------------------------------------------

  /** `ks.some(k => s.includes(k))`. */
  function AnyOccurs(ks: seq<string>, s: string): (b: bool)
    ensures b <==> exists k, i :: k in ks && OccursAt(s, k, i)
    decreases |ks|
  {
    if ks == [] then false
    else
      assert forall k :: k in ks <==> k == ks[0] || k in ks[1..];
      Contains(s, ks[0]) || AnyOccurs(ks[1..], s)
  }

  /** A message is flagged when one of the keywords is a substring of its lower-cased text. */
  function IsFlagged(text: string): (b: bool)
    ensures b <==> exists k, i :: k in Keywords && OccursAt(Lower(text), k, i)
  {
    AnyOccurs(Keywords, Lower(text))
  }

  // ---------------------------------------------------------------------------
  // The log
  // ---------------------------------------------------------------------------

  /** One entry of `db.data.logs`. */
  datatype Report = Report(user: string, message: string, date: string)

  /** A text message as the handler sees it: its text, the sender's optional username and
      first name, and the time it is handled. */
  datatype Incoming = Incoming(text: string, username: Option<string>, firstName: string,
                               date: string)

  /** `ctx.from.username || ctx.from.first_name`: the username unless it is absent or empty. */
  function ReporterName(username: Option<string>, firstName: string): (name: string)
    ensures username.Some? && username.value != "" ==> name == username.value
    ensures username.None? || username.value == "" ==> name == firstName
  {
    match username
    case Some(u) => if u != "" then u else firstName
    case None => firstName
  }

  /** The entry logged for a message: the original text, not the lower-cased one. */
  function ReportOf(m: Incoming): Report {
    Report(ReporterName(m.username, m.firstName), m.text, m.date)
  }

  /** The log after the `'text'` handler has seen `m`: the old entries stay in front, and
      one entry, the message's own, is added exactly when the message is flagged. */
  function Record(logs: seq<Report>, m: Incoming): (r: seq<Report>)
    ensures |r| == |logs| + (if IsFlagged(m.text) then 1 else 0)
    ensures r[..|logs|] == logs
    ensures IsFlagged(m.text) ==> r[|logs|] == ReportOf(m)
  {
    if IsFlagged(m.text) then logs + [ReportOf(m)] else logs
  }

  /** The log after the handler has seen `msgs`, in order: the old log is kept as a prefix
      and at most one entry is added per message. */
  function LogAfter(logs: seq<Report>, msgs: seq<Incoming>): (r: seq<Report>)
    ensures |logs| <= |r| <= |logs| + |msgs|
    ensures r[..|logs|] == logs
    decreases |msgs|
  {
    if msgs == [] then logs else LogAfter(Record(logs, msgs[0]), msgs[1..])
  }

  /** The entries of the flagged messages among `msgs`, in order: an independent description
      of what the handler accumulates. */
  function FlaggedReports(msgs: seq<Incoming>): seq<Report>
    decreases |msgs|
  {
    if msgs == [] then []
    else (if IsFlagged(msgs[0].text) then [ReportOf(msgs[0])] else []) + FlaggedReports(msgs[1..])
  }

  // ---------------------------------------------------------------------------
  // The replies of `/status` and `/reports`
  // ---------------------------------------------------------------------------

  const StatusPrefix: string := "\U{1F4CA} Total flagged messages: "

  /** The `/status` reply for a log of `n` entries: the prefix, then a number that
      `parseInt` reads back as `n`. */
  function StatusText(n: nat): (t: string)
    ensures |t| >= |StatusPrefix| && t[..|StatusPrefix|] == StatusPrefix
    ensures ParseInt(t[|StatusPrefix|..]) == Some(n)
  {
    ParseDecimal(n, "");
    assert (StatusPrefix + DecimalString(n))[|StatusPrefix|..] == DecimalString(n) + "";
    StatusPrefix + DecimalString(n)
  }

  const ReportsHeader: string := "\U{1F4C4} Reports:\n"
  const NoReports: string := "No reports yet!"

  /** `${i}. ${r.user}: "${r.message}"\n`: a line always ends with a newline. */
  function Line(i: nat, r: Report): (l: string)
    ensures |l| > 0 && l[|l| - 1] == '\n'
  {
    DecimalString(i) + ". " + r.user + ": \"" + r.message + "\"\n"
  }

  /** The lines of `entries`, numbered from `start`. */
  function LinesFrom(entries: seq<Report>, start: nat): string
    decreases |entries|
  {
    if entries == [] then "" else Line(start, entries[0]) + LinesFrom(entries[1..], start + 1)
  }

  /** The text `/reports` builds: the header, then entry `i` of the log as line `i + 1`.
      It always starts with the header, so it is never the fallback text. */
  function ReportsText(logs: seq<Report>): (t: string)
    ensures |t| >= |ReportsHeader| && t[..|ReportsHeader|] == ReportsHeader
    ensures t != NoReports
  {
    ReportsHeader + LinesFrom(logs, 1)
  }

  /** The listing of two consecutive stretches of the log is the listing of the first
      followed by that of the second, numbered on from where the first ended. */
  lemma {:induction false} LinesFromSplit(a: seq<Report>, b: seq<Report>, start: nat)
    ensures LinesFrom(a + b, start) == LinesFrom(a, start) + LinesFrom(b, start + |a|)
    decreases |a|
  {
    if a != [] {
      assert (a + b)[1..] == a[1..] + b;
      LinesFromSplit(a[1..], b, start + 1);
    } else {
      assert a + b == b;
    }
  }

  // ---------------------------------------------------------------------------
  // The bot, with the log it appends to
  // ---------------------------------------------------------------------------

  class ReportLog {
    /** `db.data.logs`. */
    var logs: seq<Report>

    constructor ()
      ensures logs == []
    {
      logs := [];
    }

    /** The `'text'` handler: log the message when it is flagged, and say whether it was
        (the bot then warns the sender). */
    method OnText(text: string, username: Option<string>, firstName: string, date: string)
      returns (flagged: bool)
      modifies this
      ensures flagged == IsFlagged(text)
      ensures logs == Record(old(logs), Incoming(text, username, firstName, date))
      ensures flagged ==> logs == old(logs) + [Report(ReporterName(username, firstName), text, date)]
      ensures !flagged ==> logs == old(logs)
    {
      var lowered := Lower(text);
      flagged := AnyOccurs(Keywords, lowered);
      if flagged {
        logs := logs + [Report(ReporterName(username, firstName), text, date)];
      }
    }

    /** `/status`: the number of entries in the log. */
    method Status() returns (reply: string)
      ensures reply == StatusText(|logs|)
      ensures reply[..|StatusPrefix|] == StatusPrefix
      ensures ParseInt(reply[|StatusPrefix|..]) == Some(|logs|)
    {
      reply := StatusPrefix + DecimalString(|logs|);
    }

    /** `/reports`: the header and one numbered line per entry, built up entry by entry;
        the fallback for an empty text is never taken because the header is not empty. */
    method Reports() returns (reply: string)
      ensures reply == ReportsText(logs)
      ensures reply != NoReports
    {
      var msg := ReportsHeader;
      var i := 0;
      while i < |logs|
        invariant 0 <= i <= |logs|
        invariant msg == ReportsHeader + LinesFrom(logs[..i], 1)
      {
        LinesFromSplit(logs[..i], [logs[i]], 1);
        assert logs[..i + 1] == logs[..i] + [logs[i]];
        msg := msg + Line(i + 1, logs[i]);
        i := i + 1;
      }
      assert logs[..i] == logs;
      reply := if msg != "" then msg else NoReports;
      assert reply[0] == ReportsHeader[0] != NoReports[0];
    }
  }
}
