/**
 * Follow-up notifications: the subject, plain body and HTML body built from a
 * list of SKUs, and the mock sender that records every message in an outbox.
 * Both kinds of notice have the same shape (a fixed header, one row per SKU,
 * a fixed closing), so a notice is a set of fixed strings and a row template.
 */
module Notification {
  import opened Wrappers
  import opened Chars
  import opened Decimal
  import opened SkuModel
  import opened SkuScanner

  /** One row: `pre`, the SKU code, `mid`, the quantity in decimal, `post`. */
  datatype RowTemplate = RowTemplate(pre: string, mid: string, post: string)

  /** The fixed parts of one kind of notification. */
  datatype Notice = Notice(
    subjectPrefix: string,
    header: string,
    closing: string,
    htmlHead: seq<string>,
    htmlRow: RowTemplate,
    htmlTail: seq<string>)

  /** The plain-text line written per SKU by both notifications. */
  const PlainRow: RowTemplate := RowTemplate("- SKU: ", ", Quantity: ", "\n")

  const InvalidHtmlHead: seq<string> := [
    "\n",
    "        <html>\n",
    "        <head>\n",
    "            <style>\n",
    "                body { font-family: Arial, sans-serif; }\n",
    "                table { border-collapse: collapse; width: 100%; }\n",
    "                th, td { padding: 8px; text-align: left; border-bottom: 1px solid #ddd; }\n",
    "                th { background-color: #f2f2f2; }\n",
    "            </style>\n",
    "        </head>\n",
    "        <body>\n",
    "            <h2>Invalid SKUs in your email</h2>\n",
    "            <p>The following SKUs in your email could not be validated:</p>\n",
    "            <table>\n",
    "                <tr>\n",
    "                    <th>SKU Code</th>\n",
    "                    <th>Quantity</th>\n",
    "                </tr>\n",
    "        "]
  const InvalidHtmlRow: RowTemplate := RowTemplate(
    "\n                <tr>\n                    <td>",
    "</td>\n                    <td>",
    "</td>\n                </tr>\n            ")
  const InvalidHtmlTail: seq<string> := [
    "\n",
    "            </table>\n",
    "            <p>Please verify these SKUs and try again.</p>\n",
    "        </body>\n",
    "        </html>\n",
    "        "]

  const InvalidNotice: Notice := Notice(
    "Invalid SKUs in email: ",
    "The following SKUs in your email could not be validated:\n\n",
    "\nPlease verify these SKUs and try again.",
    InvalidHtmlHead, InvalidHtmlRow, InvalidHtmlTail)

  const ConfirmationHtmlHead: seq<string> := [
    "\n",
    "        <html>\n",
    "        <head>\n",
    "            <style>\n",
    "                body { font-family: Arial, sans-serif; }\n",
    "                table { border-collapse: collapse; width: 100%; }\n",
    "                th, td { padding: 8px; text-align: left; border-bottom: 1px solid #ddd; }\n",
    "                th { background-color: #f2f2f2; }\n",
    "                .success { color: green; }\n",
    "            </style>\n",
    "        </head>\n",
    "        <body>\n",
    "            <h2>SKUs Processed Successfully</h2>\n",
    "            <p>The following SKUs have been processed successfully:</p>\n",
    "            <table>\n",
    "                <tr>\n",
    "                    <th>SKU Code</th>\n",
    "                    <th>Quantity</th>\n",
    "                    <th>Status</th>\n",
    "                </tr>\n",
    "        "]
  const ConfirmationHtmlRow: RowTemplate := RowTemplate(
    "\n                <tr>\n                    <td>",
    "</td>\n                    <td>",
    "</td>\n" + "                    <td class=\"success\">Processed</td>\n" + "                </tr>\n            ")
  const ConfirmationHtmlTail: seq<string> := [
    "\n",
    "            </table>\n",
    "            <p>Thank you for your order.</p>\n",
    "        </body>\n",
    "        </html>\n",
    "        "]

  const ConfirmationNotice: Notice := Notice(
    "SKUs processed successfully: ",
    "The following SKUs have been processed successfully:\n\n",
    "\nThank you for your order.",
    ConfirmationHtmlHead, ConfirmationHtmlRow, ConfirmationHtmlTail)

  // ---------------------------------------------------------------- composing

  function Row(t: RowTemplate, s: SkuInfo): string
  {
    t.pre + s.skuCode + t.mid + IntToString(s.quantity) + t.post
  }

  /** The rows for `skus`, one after another in list order. */
  function Rows(t: RowTemplate, skus: seq<SkuInfo>): string
  {
    if skus == [] then "" else Row(t, skus[0]) + Rows(t, skus[1..])
  }

  function Subject(n: Notice, originalSubject: string): string
  {
    n.subjectPrefix + originalSubject
  }

  function PlainBody(n: Notice, skus: seq<SkuInfo>): string
  {
    n.header + Rows(PlainRow, skus) + n.closing
  }

  /** The text of a fixed block kept line by line. */
  function Join(lines: seq<string>): string
  {
    if lines == [] then "" else lines[0] + Join(lines[1..])
  }

  function HtmlBody(n: Notice, skus: seq<SkuInfo>): string
  {
    Join(n.htmlHead) + Rows(n.htmlRow, skus) + Join(n.htmlTail)
  }

  lemma {:induction false} RowsSnoc(t: RowTemplate, skus: seq<SkuInfo>, s: SkuInfo)
    ensures Rows(t, skus + [s]) == Rows(t, skus) + Row(t, s)
  {
    if skus == [] {
      assert Rows(t, [s]) == Row(t, s) + Rows(t, []);
    } else {
      assert (skus + [s])[1..] == skus[1..] + [s];
      RowsSnoc(t, skus[1..], s);
    }
  }

  /** The row loop of both notifications: appends one row per SKU, in order. */
  method BuildRows(t: RowTemplate, skus: seq<SkuInfo>) returns (out: string)
    ensures out == Rows(t, skus)
  {
    out := "";
    for i := 0 to |skus|
      invariant out == Rows(t, skus[..i])
    {
      RowsSnoc(t, skus[..i], skus[i]);
      assert skus[..i + 1] == skus[..i] + [skus[i]];
      out := out + Row(t, skus[i]);
    }
    assert skus[..|skus|] == skus;
  }

  // ---------------------------------------------------------------- reading a body back

  /** The code and quantity each row shows, in list order. */
  function Fields(skus: seq<SkuInfo>): (r: seq<(string, int)>)
    ensures |r| == |skus|
    ensures forall i :: 0 <= i < |skus| ==> r[i] == (skus[i].skuCode, skus[i].quantity)
  {
    if skus == [] then [] else [(skus[0].skuCode, skus[0].quantity)] + Fields(skus[1..])
  }

  /** A template whose rows can be read back: the row is delimited and the quantity ends at `post`. */
  predicate Readable(t: RowTemplate)
  {
    |t.pre| > 0 && |t.mid| > 0 && |t.post| > 0 && !IsDigit(t.post[0]) && t.post[0] != '-'
  }

  /** A code that does not contain the character that opens `mid`. */
  predicate FitsRow(t: RowTemplate, code: string)
  {
    |t.mid| > 0 && t.mid[0] !in code
  }

  function IndexOf(s: string, c: char): (i: nat)
    ensures i <= |s|
    ensures forall j :: 0 <= j < i ==> s[j] != c
    ensures i < |s| ==> s[i] == c
  {
    if s == [] || s[0] == c then 0 else 1 + IndexOf(s[1..], c)
  }

  function DigitRun(s: string): (e: nat)
    ensures e <= |s|
  {
    if s == [] || !IsDigit(s[0]) then 0 else 1 + DigitRun(s[1..])
  }

  /** The end of an optionally signed decimal numeral at the start of `s`. */
  function NumeralEnd(s: string): (e: nat)
    ensures e <= |s|
  {
    if s != [] && s[0] == '-' then 1 + DigitRun(s[1..]) else DigitRun(s)
  }

  predicate StartsWith(s: string, prefix: string)
  {
    |prefix| <= |s| && s[..|prefix|] == prefix
  }

  /** Reads one row off the front of `text`: its code, its quantity and what follows it. */
  function ParseRow(t: RowTemplate, text: string): (r: Option<(string, int, string)>)
    requires Readable(t)
    ensures r.Some? ==> |r.value.2| < |text|
  {
    if !StartsWith(text, t.pre) then None
    else
      var rest := text[|t.pre|..];
      var i := IndexOf(rest, t.mid[0]);
      var afterCode := rest[i..];
      if !StartsWith(afterCode, t.mid) then None
      else
        var numeral := afterCode[|t.mid|..];
        var e := NumeralEnd(numeral);
        var afterNumber := numeral[e..];
        match ParseInt(numeral[..e])
        case None => None
        case Some(q) =>
          if StartsWith(afterNumber, t.post) then Some((rest[..i], q, afterNumber[|t.post|..])) else None
  }

  function ParseRows(t: RowTemplate, text: string): Option<seq<(string, int)>>
    requires Readable(t)
    decreases |text|
  {
    if text == [] then Some([])
    else match ParseRow(t, text)
      case None => None
      case Some((code, q, rest)) =>
        match ParseRows(t, rest)
        case None => None
        case Some(more) => Some([(code, q)] + more)
  }

  /** Reads a whole body back: the fixed header and closing around the rows. */
  function ParseBody(header: string, t: RowTemplate, closing: string, text: string): Option<seq<(string, int)>>
    requires Readable(t)
  {
    if |header| + |closing| <= |text| && text[..|header|] == header && text[|text| - |closing|..] == closing
    then ParseRows(t, text[|header|..|text| - |closing|])
    else None
  }

  lemma {:induction false} IndexOfFirst(a: string, b: string, c: char)
    requires c !in a && b != [] && b[0] == c
    ensures IndexOf(a + b, c) == |a|
  {
    if a != [] {
      assert (a + b)[1..] == a[1..] + b;
      IndexOfFirst(a[1..], b, c);
    }
  }

  lemma {:induction false} DigitRunOf(d: string, x: string)
    requires forall j :: 0 <= j < |d| ==> IsDigit(d[j])
    requires x != [] && !IsDigit(x[0])
    ensures DigitRun(d + x) == |d|
  {
    if d != [] {
      assert (d + x)[1..] == d[1..] + x;
      DigitRunOf(d[1..], x);
    }
  }

  lemma NumeralEndOf(q: int, x: string)
    requires x != [] && !IsDigit(x[0]) && x[0] != '-'
    ensures NumeralEnd(IntToString(q) + x) == |IntToString(q)|
  {
    var n := IntToString(q);
    if n[0] == '-' {
      assert (n + x)[1..] == n[1..] + x;
      DigitRunOf(n[1..], x);
    } else {
      DigitRunOf(n, x);
    }
  }

  lemma Split(a: string, b: string)
    ensures StartsWith(a + b, a) && (a + b)[..|a|] == a && (a + b)[|a|..] == b
  {
  }

  /** A row followed by anything reads back as that SKU's code and quantity. */
  lemma RowReadsBack(t: RowTemplate, s: SkuInfo, rest: string)
    requires Readable(t) && FitsRow(t, s.skuCode)
    ensures ParseRow(t, Row(t, s) + rest) == Some((s.skuCode, s.quantity, rest))
  {
    var n := IntToString(s.quantity);
    var afterNumber := t.post + rest;
    var numeral := n + afterNumber;
    var afterCode := t.mid + numeral;
    var afterPre := s.skuCode + afterCode;
    assert Row(t, s) + rest == t.pre + afterPre;
    Split(t.pre, afterPre);
    IndexOfFirst(s.skuCode, afterCode, t.mid[0]);
    Split(s.skuCode, afterCode);
    Split(t.mid, numeral);
    NumeralEndOf(s.quantity, afterNumber);
    Split(n, afterNumber);
    IntToStringRoundTrip(s.quantity);
    Split(t.post, rest);
  }

  /** The rows read back as the codes and quantities of the SKUs, one per SKU, in order. */
  lemma {:induction false} RowsReadBack(t: RowTemplate, skus: seq<SkuInfo>)
    requires Readable(t)
    requires forall i :: 0 <= i < |skus| ==> FitsRow(t, skus[i].skuCode)
    ensures ParseRows(t, Rows(t, skus)) == Some(Fields(skus))
  {
    if skus != [] {
      RowReadsBack(t, skus[0], Rows(t, skus[1..]));
      RowsReadBack(t, skus[1..]);
      assert Row(t, skus[0]) != [];
    }
  }

  /** A full body reads back as its SKU list: header, then one row per SKU in order, then the closing. */
  lemma BodyReadsBack(header: string, t: RowTemplate, closing: string, skus: seq<SkuInfo>)
    requires Readable(t)
    requires forall i :: 0 <= i < |skus| ==> FitsRow(t, skus[i].skuCode)
    ensures ParseBody(header, t, closing, header + Rows(t, skus) + closing) == Some(Fields(skus))
  {
    var text := header + Rows(t, skus) + closing;
    assert text[..|header|] == header;
    assert text[|text| - |closing|..] == closing;
    assert text[|header|..|text| - |closing|] == Rows(t, skus);
    RowsReadBack(t, skus);
  }

  /** Every row template of the two notifications can be read back; SKU codes fit when free of ',' and '<'. */
  lemma RowTemplatesReadable()
    ensures Readable(PlainRow) && PlainRow.mid[0] == ','
    ensures Readable(InvalidHtmlRow) && InvalidHtmlRow.mid[0] == '<'
    ensures Readable(ConfirmationHtmlRow) && ConfirmationHtmlRow.mid[0] == '<'
  {
    assert PlainRow.post[0] == '\n';
    assert InvalidHtmlRow.post[0] == '<' && ConfirmationHtmlRow.post[0] == '<';
  }

  /**
   * A notification, plain and HTML, lists exactly the given SKUs in order:
   * reading either body back yields each SKU's code and quantity, for every
   * code without ',' or '<' (which SKU codes found by the scanner never hold).
   * Both notifications meet the requirement on their row template.
   */
  lemma NoticeListsTheSkus(n: Notice, skus: seq<SkuInfo>)
    requires Readable(n.htmlRow) && n.htmlRow.mid[0] == '<'
    requires forall i :: 0 <= i < |skus| ==> ',' !in skus[i].skuCode && '<' !in skus[i].skuCode
    ensures ParseBody(n.header, PlainRow, n.closing, PlainBody(n, skus)) == Some(Fields(skus))
    ensures ParseBody(Join(n.htmlHead), n.htmlRow, Join(n.htmlTail), HtmlBody(n, skus)) == Some(Fields(skus))
  {
    RowTemplatesReadable();
    BodyReadsBack(n.header, PlainRow, n.closing, skus);
    BodyReadsBack(Join(n.htmlHead), n.htmlRow, Join(n.htmlTail), skus);
  }

  /** Codes captured by the SKU pattern are letters, digits and '-', so they fit every row. */
  lemma ScannedCodesFit(code: string)
    requires forall j :: 0 <= j < |code| ==> IsCodeChar(code[j])
    ensures ',' !in code && '<' !in code
  {
  }

  // ---------------------------------------------------------------- sending

  /** One outbox record of the mock sender. */
  datatype SentEmail = SentEmail(to: string, subject: string, body: string, htmlBody: Option<string>)

  /** `MockEmailSender`: an SMTP sender that only records what it is asked to send. */
  class MockEmailSender {
    const smtpServer: string
    const smtpPort: int
    const username: string
    const password: string
    var sentEmails: seq<SentEmail>

    constructor ()
      ensures sentEmails == []
      ensures smtpServer == "smtp.example.com" && smtpPort == 587
      ensures username == "noreply@example.com" && password == "password"
    {
      smtpServer := "smtp.example.com";
      smtpPort := 587;
      username := "noreply@example.com";
      password := "password";
      sentEmails := [];
    }

    /** `send_email`: appends exactly one record, keeps the earlier ones, and reports success. */
    method SendEmail(to: string, subject: string, body: string, htmlBody: Option<string>) returns (ok: bool)
      modifies this
      ensures sentEmails == old(sentEmails) + [SentEmail(to, subject, body, htmlBody)]
      ensures ok
    {
      sentEmails := sentEmails + [SentEmail(to, subject, body, htmlBody)];
      ok := true;
    }
  }

  /** `NotificationService` over the mock sender. */
  class NotificationService {
    const sender: MockEmailSender

    constructor (sender: MockEmailSender)
      ensures this.sender == sender
    {
      this.sender := sender;
    }

    /** Builds one notice and hands it to the sender once; the sender's answer is returned. */
    method SendNotice(n: Notice, to: string, skus: seq<SkuInfo>, originalSubject: string) returns (ok: bool)
      modifies sender
      ensures sender.sentEmails ==
              old(sender.sentEmails) + [SentEmail(to, Subject(n, originalSubject), PlainBody(n, skus), Some(HtmlBody(n, skus)))]
      ensures ok
    {
      var subject := n.subjectPrefix + originalSubject;
      var rows := BuildRows(PlainRow, skus);
      var body := n.header + rows + n.closing;
      var htmlRows := BuildRows(n.htmlRow, skus);
      var html := Join(n.htmlHead) + htmlRows + Join(n.htmlTail);
      ok := sender.SendEmail(to, subject, body, Some(html));
    }

    /** `send_invalid_sku_notification`. */
    method SendInvalidSkuNotification(to: string, invalidSkus: seq<SkuInfo>, originalSubject: string) returns (ok: bool)
      modifies sender
      ensures sender.sentEmails ==
              old(sender.sentEmails) +
              [SentEmail(to, Subject(InvalidNotice, originalSubject), PlainBody(InvalidNotice, invalidSkus),
                         Some(HtmlBody(InvalidNotice, invalidSkus)))]
      ensures ok
    {
      ok := SendNotice(InvalidNotice, to, invalidSkus, originalSubject);
    }

    /** `send_processing_confirmation`. */
    method SendProcessingConfirmation(to: string, validSkus: seq<SkuInfo>, originalSubject: string) returns (ok: bool)
      modifies sender
      ensures sender.sentEmails ==
              old(sender.sentEmails) +
              [SentEmail(to, Subject(ConfirmationNotice, originalSubject), PlainBody(ConfirmationNotice, validSkus),
                         Some(HtmlBody(ConfirmationNotice, validSkus)))]
      ensures ok
    {
      ok := SendNotice(ConfirmationNotice, to, validSkus, originalSubject);
    }
  }
}
