/**
 * Worked examples of the whole pipeline, from delivery to display: a push
 * and an opened pull request shown as sentences, a merge with no
 * `merged_by`, an out-of-calendar date, a missing timestamp and a missing
 * key. The lemmas on single strings and numbers are the pieces each
 * example's sentence is assembled from.
 */
module Scenarios {
  import opened Wrappers
  import opened Decimal
  import opened Events
  import Strings
  import Timestamps
  import Formatter
  import Store

  // ------------------------------------------------------- digit arithmetic

  lemma DigitChars()
    ensures DigitChar(0) == '0' && DigitChar(1) == '1' && DigitChar(2) == '2' && DigitChar(3) == '3'
      && DigitChar(4) == '4' && DigitChar(5) == '5' && DigitChar(6) == '6' && DigitChar(7) == '7'
      && DigitChar(8) == '8' && DigitChar(9) == '9'
  {
  }

  lemma Pad2(n: nat)
    requires n < 100
    ensures PadDecimal(n, 2) == [DigitChar(n / 10), DigitChar(n % 10)]
  {
    assert PadDecimal(n / 10, 1) == PadDecimal(0, 0) + [DigitChar(n / 10)];
  }

  lemma Pad2Is(n: nat, s: string)
    requires n < 100 && |s| == 2 && s[0] == DigitChar(n / 10) && s[1] == DigitChar(n % 10)
    ensures PadDecimal(n, 2) == s
  {
    Pad2(n);
  }

  lemma Pad4(n: nat)
    requires n < 10000
    ensures PadDecimal(n, 4) == PadDecimal(n / 100, 2) + PadDecimal(n % 100, 2)
  {
    var a := n / 10;
    assert PadDecimal(n, 4) == PadDecimal(a, 3) + [DigitChar(n % 10)];
    assert PadDecimal(a, 3) == PadDecimal(a / 10, 2) + [DigitChar(a % 10)];
    assert a / 10 == n / 100;
    Pad2(n % 100);
    assert (n % 100) / 10 == a % 10;
    assert (n % 100) % 10 == n % 10;
  }

  /** The canonical text of a fraction-free date-time, assembled from its padded fields. */
  lemma ShowIs(dt: Timestamps.DateTime, y: string, mo: string, d: string, h: string, mi: string, se: string,
               zone: string, whole: string)
    requires Timestamps.Valid(dt) && dt.fraction == ""
    requires PadDecimal(dt.year, 4) == y && PadDecimal(dt.month, 2) == mo && PadDecimal(dt.day, 2) == d
    requires PadDecimal(dt.hour, 2) == h && PadDecimal(dt.minute, 2) == mi && PadDecimal(dt.second, 2) == se
    requires Timestamps.OffsetText(dt.offset) == zone
    requires y + "-" + mo + "-" + d + "T" + h + ":" + mi + ":" + se + zone == whole
    ensures Timestamps.Show(dt) == whole
  {
    var date := Timestamps.DateText(dt);
    assert date == y + "-" + mo + "-" + d + "T" + h + ":" + mi + ":" + se;
    assert Timestamps.Show(dt) == date + "" + zone;
  }

  /** The display text, assembled from its pieces. */
  lemma RenderIs(dt: Timestamps.DateTime, d: string, month: string, y: string, h: string, mi: string,
                 ampm: string, whole: string)
    requires Timestamps.Valid(dt)
    requires PadDecimal(dt.day, 2) == d && Timestamps.MonthName(dt.month) == month
    requires PadDecimal(dt.year, 4) == y && PadDecimal(Timestamps.Hour12(dt.hour), 2) == h
    requires PadDecimal(dt.minute, 2) == mi && Timestamps.Meridiem(dt.hour) == ampm
    requires d + " " + month + " " + (y + " - " + h + ":" + mi + " " + ampm + " UTC") == whole
    ensures Timestamps.Render(dt) == whole
  {
    assert Timestamps.RenderTail(dt) == y + " - " + h + ":" + mi + " " + ampm + " UTC";
  }

  lemma Year2024(y: nat)
    requires y == 2024
    ensures PadDecimal(y, 4) == "2024"
  {
    DigitChars();
    Pad4(y);
    Pad2(20);
    Pad2(24);
  }

  lemma UtcOffsetText(o: Option<Timestamps.Offset>)
    requires o == Some(Timestamps.Offset(false, 0, 0))
    ensures Timestamps.OffsetText(o) == "+00:00"
  {
    DigitChars();
    Pad2(0);
  }

  // ------------------------------------------- 2024-03-01T10:15:00Z example

  lemma MarchFirstPads(dt: Timestamps.DateTime)
    requires dt == Timestamps.DateTime(2024, 3, 1, 10, 15, 0, "", Some(Timestamps.Offset(false, 0, 0)))
    ensures PadDecimal(dt.month, 2) == "03" && PadDecimal(dt.day, 2) == "01"
    ensures PadDecimal(dt.hour, 2) == "10" && PadDecimal(Timestamps.Hour12(dt.hour), 2) == "10"
    ensures PadDecimal(dt.minute, 2) == "15" && PadDecimal(dt.second, 2) == "00"
    ensures PadDecimal(dt.year, 4) == "2024" && Timestamps.OffsetText(dt.offset) == "+00:00"
  {
    DigitChars();
    Pad2Is(dt.month, "03");
    Pad2Is(dt.day, "01");
    Pad2Is(dt.hour, "10");
    assert Timestamps.Hour12(dt.hour) == dt.hour;
    Pad2Is(dt.minute, "15");
    Pad2Is(dt.second, "00");
    Year2024(dt.year);
    UtcOffsetText(dt.offset);
  }

  lemma ShowMarchFirst(dt: Timestamps.DateTime)
    requires dt == Timestamps.DateTime(2024, 3, 1, 10, 15, 0, "", Some(Timestamps.Offset(false, 0, 0)))
    ensures Timestamps.Valid(dt) && Timestamps.Show(dt) == "2024-03-01T10:15:00+00:00"
  {
    MarchFirstPads(dt);
    IsoMarchFirstText();
    ShowIs(dt, "2024", "03", "01", "10", "15", "00", "+00:00", "2024-03-01T10:15:00+00:00");
  }

  lemma IsoMarchFirstText()
    ensures "2024" + "-" + "03" + "-" + "01" + "T" + "10" + ":" + "15" + ":" + "00" + "+00:00"
         == "2024-03-01T10:15:00+00:00"
  {
  }

  lemma RenderMarchFirst(dt: Timestamps.DateTime)
    requires dt == Timestamps.DateTime(2024, 3, 1, 10, 15, 0, "", Some(Timestamps.Offset(false, 0, 0)))
    ensures Timestamps.Valid(dt) && Timestamps.Render(dt) == "01 March 2024 - 10:15 AM UTC"
  {
    MarchFirstPads(dt);
    DisplayMarchFirstText();
    RenderIs(dt, "01", "March", "2024", "10", "15", "AM", "01 March 2024 - 10:15 AM UTC");
  }

  lemma DisplayMarchFirstText()
    ensures "01" + " " + "March" + " " + ("2024" + " - " + "10" + ":" + "15" + " " + "AM" + " UTC")
         == "01 March 2024 - 10:15 AM UTC"
  {
  }

  lemma ZuluText(x: string, raw: string)
    requires 'Z' !in x && raw == x + "Z"
    ensures Timestamps.NormalizeZ(raw) == x + "+00:00"
  {
    Strings.ReplaceAllAppend(x, "Z", 'Z', "+00:00");
    assert Strings.ReplaceAll("Z", 'Z', "+00:00") == "+00:00";
  }

  lemma ZuluMarchFirst(raw: string)
    requires raw == "2024-03-01T10:15:00Z"
    ensures Timestamps.NormalizeZ(raw) == "2024-03-01T10:15:00+00:00"
  {
    var x := "2024-03-01T10:15:00";
    ZuluMarchFirstText();
    ZuluText(x, raw);
  }

  lemma ZuluMarchFirstText()
    ensures 'Z' !in "2024-03-01T10:15:00"
    ensures "2024-03-01T10:15:00" + "Z" == "2024-03-01T10:15:00Z"
    ensures "2024-03-01T10:15:00" + "+00:00" == "2024-03-01T10:15:00+00:00"
  {
  }

  /** A raw timestamp whose `Z`-rewritten form is the canonical text of `dt` displays as `Render(dt)`. */
  lemma DisplayOfShow(raw: string, dt: Timestamps.DateTime, shown: string)
    requires Timestamps.Valid(dt) && Timestamps.NormalizeZ(raw) == Timestamps.Show(dt)
    requires Timestamps.Render(dt) == shown
    ensures Timestamps.DisplayTimestamp(raw) == Some(shown)
  {
    Timestamps.ParseShow(dt);
  }

  /** `2024-03-01T10:15:00Z` is displayed as `01 March 2024 - 10:15 AM UTC`. */
  lemma DisplayMarchFirst(raw: string)
    requires raw == "2024-03-01T10:15:00Z"
    ensures Timestamps.DisplayTimestamp(raw) == Some("01 March 2024 - 10:15 AM UTC")
  {
    var dt := Timestamps.DateTime(2024, 3, 1, 10, 15, 0, "", Some(Timestamps.Offset(false, 0, 0)));
    ShowMarchFirst(dt);
    RenderMarchFirst(dt);
    ZuluMarchFirst(raw);
    DisplayOfShow(raw, dt, "01 March 2024 - 10:15 AM UTC");
  }

  // ------------------------------------------- 2024-03-02T08:00:00+00:00 example

  lemma MarchSecondPads(dt: Timestamps.DateTime)
    requires dt == Timestamps.DateTime(2024, 3, 2, 8, 0, 0, "", Some(Timestamps.Offset(false, 0, 0)))
    ensures PadDecimal(dt.month, 2) == "03" && PadDecimal(dt.day, 2) == "02"
    ensures PadDecimal(dt.hour, 2) == "08" && PadDecimal(Timestamps.Hour12(dt.hour), 2) == "08"
    ensures PadDecimal(dt.minute, 2) == "00" && PadDecimal(dt.second, 2) == "00"
    ensures PadDecimal(dt.year, 4) == "2024" && Timestamps.OffsetText(dt.offset) == "+00:00"
  {
    DigitChars();
    Pad2Is(dt.month, "03");
    Pad2Is(dt.day, "02");
    Pad2Is(dt.hour, "08");
    assert Timestamps.Hour12(dt.hour) == dt.hour;
    Pad2Is(dt.minute, "00");
    Pad2Is(dt.second, "00");
    Year2024(dt.year);
    UtcOffsetText(dt.offset);
  }

  lemma ShowMarchSecond(dt: Timestamps.DateTime)
    requires dt == Timestamps.DateTime(2024, 3, 2, 8, 0, 0, "", Some(Timestamps.Offset(false, 0, 0)))
    ensures Timestamps.Valid(dt) && Timestamps.Show(dt) == "2024-03-02T08:00:00+00:00"
  {
    MarchSecondPads(dt);
    IsoMarchSecondText();
    ShowIs(dt, "2024", "03", "02", "08", "00", "00", "+00:00", "2024-03-02T08:00:00+00:00");
  }

  lemma IsoMarchSecondText()
    ensures "2024" + "-" + "03" + "-" + "02" + "T" + "08" + ":" + "00" + ":" + "00" + "+00:00"
         == "2024-03-02T08:00:00+00:00"
    ensures 'Z' !in "2024-03-02T08:00:00+00:00"
  {
  }

  lemma RenderMarchSecond(dt: Timestamps.DateTime)
    requires dt == Timestamps.DateTime(2024, 3, 2, 8, 0, 0, "", Some(Timestamps.Offset(false, 0, 0)))
    ensures Timestamps.Valid(dt) && Timestamps.Render(dt) == "02 March 2024 - 08:00 AM UTC"
  {
    MarchSecondPads(dt);
    DisplayMarchSecondText();
    RenderIs(dt, "02", "March", "2024", "08", "00", "AM", "02 March 2024 - 08:00 AM UTC");
  }

  lemma DisplayMarchSecondText()
    ensures "02" + " " + "March" + " " + ("2024" + " - " + "08" + ":" + "00" + " " + "AM" + " UTC")
         == "02 March 2024 - 08:00 AM UTC"
  {
  }

  /** `2024-03-02T08:00:00+00:00` is displayed as `02 March 2024 - 08:00 AM UTC`. */
  lemma DisplayMarchSecond(raw: string)
    requires raw == "2024-03-02T08:00:00+00:00"
    ensures Timestamps.DisplayTimestamp(raw) == Some("02 March 2024 - 08:00 AM UTC")
  {
    var dt := Timestamps.DateTime(2024, 3, 2, 8, 0, 0, "", Some(Timestamps.Offset(false, 0, 0)));
    ShowMarchSecond(dt);
    RenderMarchSecond(dt);
    IsoMarchSecondText();
    DisplayOfShow(raw, dt, "02 March 2024 - 08:00 AM UTC");
  }

  // ----------------------------------------------------------- invalid date

  lemma FebThirtyText(raw: string)
    requires raw == "2024-02-30T10:00:00Z"
    ensures Timestamps.NormalizeZ(raw) == "2024-02-30T10:00:00+00:00"
  {
    FebThirtyPieces();
    ZuluText("2024-02-30T10:00:00", raw);
  }

  lemma FebThirtyPieces()
    ensures 'Z' !in "2024-02-30T10:00:00"
    ensures "2024-02-30T10:00:00" + "Z" == "2024-02-30T10:00:00Z"
    ensures "2024-02-30T10:00:00" + "+00:00" == "2024-02-30T10:00:00+00:00"
  {
  }

  lemma FebThirtySlices(s: string)
    requires s == "2024-02-30T10:00:00+00:00"
    ensures |s| >= 19 && s[5..7] == "02" && s[8..10] == "30"
  {
  }

  /** A two-digit field reads back as the number it pads. */
  lemma PadReadBack(n: nat, s: string)
    requires n < 100 && PadDecimal(n, 2) == s
    ensures n == ValueOf(s)
  {
  }

  lemma ThirtyAndTwo()
    ensures ValueOf("30") == 30 && ValueOf("02") == 2
  {
    DigitChars();
    assert "30"[..1] == "3";
    assert "02"[..1] == "0";
  }

  /** 30 February does not exist, so its timestamp takes the data-error path. */
  lemma FebThirtyRejected(raw: string)
    requires raw == "2024-02-30T10:00:00Z"
    ensures Timestamps.DisplayTimestamp(raw) == None
  {
    FebThirtyText(raw);
    if Timestamps.ParseTimestamp(raw).Some? {
      var dt := Timestamps.ParseTimestamp(raw).value;
      var s := Timestamps.Show(dt);
      Timestamps.ShowStartsWithDate(dt);
      Timestamps.DateTextFields(dt);
      FebThirtySlices(s);
      assert Timestamps.DateText(dt)[5..7] == s[5..7];
      assert Timestamps.DateText(dt)[8..10] == s[8..10];
      PadReadBack(dt.month, "02");
      PadReadBack(dt.day, "30");
      ThirtyAndTwo();
      assert false;
    }
  }

  // ------------------------------------------------------------ refs and ids

  /** The branch of a ref is what follows its last `/`. */
  lemma BranchOfRef(prefix: string, branch: string)
    requires '/' !in branch
    ensures Strings.LastSegment(prefix + "/" + branch, '/') == branch
  {
    var s := prefix + "/" + branch;
    var r := Strings.LastSegment(s, '/');
    assert s[|s| - |branch| - 1] == '/';
    if |r| > |branch| {
      assert false;
    } else if |r| < |branch| {
      assert false;
    }
    assert s[|s| - |branch|..] == branch;
  }

  /** `refs/heads/feat/x` names the branch `x`. */
  lemma NestedBranch(ref: string)
    requires ref == "refs/heads/feat/x"
    ensures Strings.LastSegment(ref, '/') == "x"
  {
    assert ref == "refs/heads/feat" + "/" + "x";
    BranchOfRef("refs/heads/feat", "x");
  }

  lemma FortyTwo(id: int)
    requires id == 42
    ensures Decimal.IntToString(id) == "42"
  {
    DigitChars();
    assert NatToString(4) == "4";
  }

  // ------------------------------------------------------- whole deliveries

  lemma PushSentenceStart()
    ensures "alice" + " pushed to " + "main" + " on " == "alice pushed to main on "
  {
  }

  lemma PushSentenceWhole()
    ensures "alice pushed to main on " + "01 March 2024 - 10:15 AM UTC"
         == "alice pushed to main on 01 March 2024 - 10:15 AM UTC"
  {
  }

  lemma MainRef()
    ensures "refs/heads/main" == "refs/heads" + "/" + "main"
    ensures '/' !in "main"
  {
  }

  /** A stored push whose timestamp displays as `shown` is formatted as the push sentence. */
  lemma PushShownAs(r: Record, shown: string, sentence: string)
    requires r.action == Push && Timestamps.DisplayTimestamp(r.timestamp) == Some(shown)
    requires r.author + " pushed to " + r.toBranch + " on " + shown == sentence
    ensures Formatter.FormatEvent(Formatter.FromRecord(r)) == sentence
  {
    NonEmptyWhenShown(r.timestamp);
    Formatter.FormatStoredRecord(r);
  }

  /** A push to `refs/heads/main` is stored as a PUSH to `main`, keyed by the head commit. */
  lemma PushStored(p: Payload)
    requires p == PushPayload("alice", "refs/heads/main", "abc123", Some(HeadCommit("2024-03-01T10:15:00Z")))
    ensures Normalize(p) == Some(Record("abc123", "alice", Push, "", "main", "2024-03-01T10:15:00Z"))
  {
    MainRef();
    BranchOfRef("refs/heads", "main");
  }

  /** The record of `PushStored` is shown with its branch and its time on the 12-hour clock. */
  lemma PushShown(r: Record)
    requires r == Record("abc123", "alice", Push, "", "main", "2024-03-01T10:15:00Z")
    ensures Formatter.FormatEvent(Formatter.FromRecord(r)) == "alice pushed to main on 01 March 2024 - 10:15 AM UTC"
  {
    DisplayMarchFirst(r.timestamp);
    PushSentenceStart();
    PushSentenceWhole();
    PushShownAs(r, "01 March 2024 - 10:15 AM UTC", "alice pushed to main on 01 March 2024 - 10:15 AM UTC");
  }

  lemma OpenedSentenceStart()
    ensures "bob" + " submitted a pull request from " + "feature-x" + " to " + "main" + " on "
         == "bob submitted a pull request from feature-x to main on "
  {
    OpenedSentenceHead();
    OpenedSentenceBranches();
  }

  lemma OpenedSentenceHead()
    ensures "bob" + " submitted a pull request from " == "bob submitted a pull request from "
  {
  }

  lemma OpenedSentenceBranches()
    ensures "bob submitted a pull request from " + "feature-x" + " to " + "main" + " on "
         == "bob submitted a pull request from feature-x to main on "
  {
  }

  lemma OpenedSentenceWhole()
    ensures "bob submitted a pull request from feature-x to main on " + "02 March 2024 - 08:00 AM UTC"
         == "bob submitted a pull request from feature-x to main on 02 March 2024 - 08:00 AM UTC"
  {
  }

  /** A stored pull request whose timestamp displays as `shown` is formatted as the submission sentence. */
  lemma OpenedShownAs(r: Record, shown: string, sentence: string)
    requires r.action == PullRequest && Timestamps.DisplayTimestamp(r.timestamp) == Some(shown)
    requires r.author + " submitted a pull request from " + r.fromBranch + " to " + r.toBranch + " on " + shown
             == sentence
    ensures Formatter.FormatEvent(Formatter.FromRecord(r)) == sentence
  {
    NonEmptyWhenShown(r.timestamp);
    Formatter.FormatStoredRecord(r);
  }

  lemma NonEmptyWhenShown(raw: string)
    requires Timestamps.DisplayTimestamp(raw).Some?
    ensures raw != ""
  {
    if raw == "" {
      assert false;
    }
  }

  /** An opened pull request is stored under its id, with both branches. */
  lemma OpenedStored(p: Payload)
    requires p == PullRequestPayload(Some("opened"),
      PullRequestInfo(42, "bob", "feature-x", "main", "2024-03-02T08:00:00+00:00", None, None, ""))
    ensures Normalize(p) == Some(Record("42", "bob", PullRequest, "feature-x", "main", "2024-03-02T08:00:00+00:00"))
  {
    FortyTwo(p.pullRequest.id);
  }

  /** The record of `OpenedStored` is shown with both branches and its time. */
  lemma OpenedShown(r: Record)
    requires r == Record("42", "bob", PullRequest, "feature-x", "main", "2024-03-02T08:00:00+00:00")
    ensures Formatter.FormatEvent(Formatter.FromRecord(r))
         == "bob submitted a pull request from feature-x to main on 02 March 2024 - 08:00 AM UTC"
  {
    DisplayMarchSecond(r.timestamp);
    OpenedSentenceStart();
    OpenedSentenceWhole();
    OpenedShownAs(r, "02 March 2024 - 08:00 AM UTC",
      "bob submitted a pull request from feature-x to main on 02 March 2024 - 08:00 AM UTC");
  }

  /** Closing without merging stores nothing, and the handler still answers success. */
  lemma ClosedUnmergedScenario(store: seq<Record>, p: Payload)
    requires p.PullRequestPayload? && p.action == Some("closed") && p.pullRequest.merged == Some(false)
    ensures Normalize(p).None?
    ensures Store.HandleWebhook(store, p) == (store, Store.Success)
  {
  }

  /** A merge whose `merged_by` is missing is credited to "Unknown". */
  lemma MergeByUnknownScenario(p: Payload)
    requires p.PullRequestPayload? && p.action == Some("closed") && p.pullRequest.merged == Some(true)
    requires p.pullRequest.mergedBy.None?
    ensures Normalize(p).Some? && Normalize(p).value.author == "Unknown"
    ensures Normalize(p).value.action == Merge && Normalize(p).value.timestamp == p.pullRequest.mergedAt
  {
  }

  /** A stored document without a timestamp is shown as the missing-timestamp sentinel. */
  lemma MissingTimestampScenario(d: Formatter.Document)
    requires d.author.Some? && d.action.Some? && d.timestamp.None?
    ensures Formatter.FormatEvent(d) == "Event with missing timestamp"
  {
  }

  /** The key lookups come first: no author and no timestamp is a data error, not a missing timestamp. */
  lemma MissingAuthorScenario(d: Formatter.Document)
    requires d.author.None? && d.timestamp.None? && d.requestId.None?
    ensures Formatter.FormatEvent(d) == "Could not display event due to a data error: Unknown ID"
  {
  }

  /** Midnight is 12 AM, noon is 12 PM, 13:00 is 01 PM. */
  lemma TwelveHourClock()
    ensures Timestamps.Hour12(0) == 12 && Timestamps.Meridiem(0) == "AM"
    ensures Timestamps.Hour12(12) == 12 && Timestamps.Meridiem(12) == "PM"
    ensures Timestamps.Hour12(13) == 1 && Timestamps.Meridiem(13) == "PM"
  {
  }
}
