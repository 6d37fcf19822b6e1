/** The pure part of the SMS report (services/twilio_service.py): turning the
    messages the messaging API returned into records, and the records into the
    ordered elements of the PDF report. The API call itself, the look-back
    window and the PDF rendering stay outside the model: the call's outcome is
    an input, and the report is the list of elements handed to the renderer. */
module TwilioService {
  import opened Wrappers

  // ---------------------------------------------------------------------------
  // Send times and their '%Y-%m-%d %H:%M:%S' text
  // ---------------------------------------------------------------------------

  datatype Timestamp = Timestamp(year: nat, month: nat, day: nat, hour: nat, minute: nat, second: nat)

  /** The ranges a datetime value keeps its fields in. */
  predicate ValidTimestamp(t: Timestamp) {
    && 1 <= t.year <= 9999 && 1 <= t.month <= 12 && 1 <= t.day <= 31
    && t.hour < 24 && t.minute < 60 && t.second < 60
  }

  type DateTime = t: Timestamp | ValidTimestamp(t) witness Timestamp(1, 1, 1, 0, 0, 0)

  function Pow10(n: nat): nat {
    if n == 0 then 1 else 10 * Pow10(n - 1)
  }

  predicate IsDigit(c: char) {
    '0' <= c <= '9'
  }

  /** n in decimal, zero-padded on the left to exactly `width` digits. */
  function PadDigits(n: nat, width: nat): (r: string)
    ensures |r| == width
    ensures forall i :: 0 <= i < |r| ==> IsDigit(r[i])
  {
    if width == 0 then ""
    else PadDigits(n / 10, width - 1) + [('0' as int + n % 10) as char]
  }

  /** The number a string of decimal digits denotes. */
  function DigitsValue(s: string): int {
    if s == [] then 0
    else 10 * DigitsValue(s[..|s| - 1]) + (s[|s| - 1] as int - '0' as int)
  }

  /** Reading the padded digits back gives the number, when it fits. */
  lemma {:induction false} DigitsRoundTrip(n: nat, width: nat)
    requires n < Pow10(width)
    ensures DigitsValue(PadDigits(n, width)) == n
    decreases width
  {
    if width > 0 {
      var front := PadDigits(n / 10, width - 1);
      var r := PadDigits(n, width);
      assert r[..|r| - 1] == front;
      DigitsRoundTrip(n / 10, width - 1);
    }
  }

  /** `strftime('%Y-%m-%d %H:%M:%S')`. */
  function FormatDate(t: DateTime): string {
    PadDigits(t.year, 4) + "-" + PadDigits(t.month, 2) + "-" + PadDigits(t.day, 2) + " "
      + PadDigits(t.hour, 2) + ":" + PadDigits(t.minute, 2) + ":" + PadDigits(t.second, 2)
  }

  /** Reads the six fields back from a formatted date. */
  function ParseDate(s: string): Timestamp
    requires |s| == 19
  {
    Timestamp(Natural(DigitsValue(s[0..4])), Natural(DigitsValue(s[5..7])), Natural(DigitsValue(s[8..10])),
              Natural(DigitsValue(s[11..13])), Natural(DigitsValue(s[14..16])), Natural(DigitsValue(s[17..19])))
  }

  function Natural(i: int): nat {
    if i < 0 then 0 else i
  }

  /** The Date column loses nothing: it is 19 characters of fixed layout from
      which the send time is read back exactly. */
  lemma FormatDateRoundTrip(t: DateTime)
    ensures |FormatDate(t)| == 19
    ensures var s := FormatDate(t); s[4] == s[7] == '-' && s[10] == ' ' && s[13] == s[16] == ':'
    ensures ParseDate(FormatDate(t)) == t
  {
    var y, mo, d := PadDigits(t.year, 4), PadDigits(t.month, 2), PadDigits(t.day, 2);
    var h, mi, se := PadDigits(t.hour, 2), PadDigits(t.minute, 2), PadDigits(t.second, 2);
    DateLayout(y, mo, d, h, mi, se);
    DigitsRoundTrip(t.year, 4);
    DigitsRoundTrip(t.month, 2);
    DigitsRoundTrip(t.day, 2);
    DigitsRoundTrip(t.hour, 2);
    DigitsRoundTrip(t.minute, 2);
    DigitsRoundTrip(t.second, 2);
  }

  /** Where the six fields and the five separators of a date text sit. */
  lemma DateLayout(y: string, mo: string, d: string, h: string, mi: string, se: string)
    requires |y| == 4 && |mo| == |d| == |h| == |mi| == |se| == 2
    ensures var s := y + "-" + mo + "-" + d + " " + h + ":" + mi + ":" + se;
            && |s| == 19
            && s[4] == s[7] == '-' && s[10] == ' ' && s[13] == s[16] == ':'
            && s[0..4] == y && s[5..7] == mo && s[8..10] == d
            && s[11..13] == h && s[14..16] == mi && s[17..19] == se
  {
    var s := y + "-" + mo + "-" + d + " " + h + ":" + mi + ":" + se;
    // Not every slice step is needed; stating them keeps the proof cheaper.
    assert s[0..4] == y;
    assert s[5..7] == mo;
    assert s[8..10] == d;
    assert s[11..13] == h;
    assert s[14..16] == mi;
    assert s[17..19] == se;
  }

  // ---------------------------------------------------------------------------
  // Messages to records
  // ---------------------------------------------------------------------------

  /** A message as the API returns it; its send time may be missing. */
  datatype Message = Message(dateSent: Option<DateTime>, sid: string, status: string, body: string)

  /** The outcome of listing the messages sent to a number in the window. */
  datatype Listing = Listed(messages: seq<Message>) | ListFailed

  /** One row of the messages frame: Date, SMS SID, Status, Message. */
  datatype MessageRecord = MessageRecord(date: string, sid: string, status: string, message: string)

  function RecordOf(m: Message): MessageRecord
    requires m.dateSent.Some?
  {
    MessageRecord(FormatDate(m.dateSent.value), m.sid, m.status, m.body)
  }

  predicate AllDated(messages: seq<Message>) {
    forall i :: 0 <= i < |messages| ==> messages[i].dateSent.Some?
  }

  /** The frame built from a listing: one record per message, in order. A
      failed listing, or a message whose send time cannot be formatted, ends
      in the error handler, which returns an empty frame. */
  method GetMessagesForNumber(listing: Listing) returns (data: seq<MessageRecord>)
    ensures listing.ListFailed? ==> data == []
    ensures listing.Listed? && !AllDated(listing.messages) ==> data == []
    ensures listing.Listed? && AllDated(listing.messages) ==>
              && |data| == |listing.messages|
              && forall i :: 0 <= i < |data| ==> data[i] == RecordOf(listing.messages[i])
  {
    if listing.ListFailed? {
      return [];
    }
    var messages := listing.messages;
    data := [];
    for k := 0 to |messages|
      invariant |data| == k
      invariant forall i :: 0 <= i < k ==> messages[i].dateSent.Some? && data[i] == RecordOf(messages[i])
    {
      var msg := messages[k];
      if msg.dateSent.None? {
        return [];
      }
      data := data + [RecordOf(msg)];
    }
  }

  /** Each record carries its message's SID, status and body unchanged, and a
      Date text from which the send time is read back exactly. */
  lemma RecordFaithful(m: Message)
    requires m.dateSent.Some?
    ensures var rec := RecordOf(m);
            && rec.sid == m.sid && rec.status == m.status && rec.message == m.body
            && |rec.date| == 19 && ParseDate(rec.date) == m.dateSent.value
  {
    FormatDateRoundTrip(m.dateSent.value);
  }

  // ---------------------------------------------------------------------------
  // The report
  // ---------------------------------------------------------------------------

  /** The SID as shown in the table: its first 20 characters and "..." when
      it is longer than that, the whole SID otherwise. */
  function SidDisplay(sid: string): (r: string)
    ensures |sid| <= 20 ==> r == sid
    ensures |sid| > 20 ==> |r| == 23 && r[..20] == sid[..20] && r[20..] == "..."
  {
    if |sid| > 20 then sid[..20] + "..." else sid
  }

  /** The elements handed to the PDF renderer, in order. */
  datatype Flowable =
    | Title(text: string)
    | Spacer(height: nat)
    | Info(number: string, total: nat)
    | Table(rows: seq<seq<string>>)
    | Paragraph(text: string)

  const ReportTitle := "<b>SMS Messages Report from Twilio</b>"
  const NoMessagesNote := "No messages found in the specified date range."
  const Header: seq<string> := ["Date", "SMS SID", "Status", "Message"]

  function TableRow(rec: MessageRecord): seq<string> {
    [rec.date, SidDisplay(rec.sid), rec.status, rec.message]
  }

  /** The report for a phone number: title, the number and the total count,
      then either a table with the header row and one row per record in
      order, or, for no records, only the no-messages note. */
  method CreateMessagesReport(phone: string, records: seq<MessageRecord>) returns (elements: seq<Flowable>)
    ensures |elements| >= 5
    ensures elements[..4] == [Title(ReportTitle), Spacer(12), Info(phone, |records|), Spacer(20)]
    ensures records == [] ==> elements == elements[..4] + [Paragraph(NoMessagesNote)]
    ensures records != [] ==>
              && |elements| == 6 && elements[4] == Spacer(12) && elements[5].Table?
              && var rows := elements[5].rows;
                 && |rows| == |records| + 1 && rows[0] == Header
                 && (forall i :: 0 <= i < |records| ==> rows[i + 1] == TableRow(records[i]))
                 && (forall i :: 0 <= i < |rows| ==> |rows[i]| == |Header| && |rows[i][1]| <= 23)
  {
    elements := [Title(ReportTitle), Spacer(12)];
    elements := elements + [Info(phone, |records|), Spacer(20)];
    if records != [] {
      var rows := [Header];
      for k := 0 to |records|
        invariant |rows| == k + 1 && rows[0] == Header
        invariant forall i :: 0 <= i < k ==> rows[i + 1] == TableRow(records[i])
        invariant forall i :: 0 <= i < |rows| ==> |rows[i]| == |Header| && |rows[i][1]| <= 23
      {
        var rec := records[k];
        rows := rows + [[rec.date, SidDisplay(rec.sid), rec.status, rec.message]];
      }
      elements := elements + [Spacer(12), Table(rows)];
    } else {
      elements := elements + [Paragraph(NoMessagesNote)];
    }
  }
}
