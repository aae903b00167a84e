/**
 * Turning a Gmail API message (a tree of MIME parts) into an `EmailMessage`:
 * case-insensitive header lookup, the search for the plain-text body, and the
 * walk that collects attachment descriptors. Base64 decoding and date parsing
 * are supplied by the caller as functions.
 */
module GmailParsing {
  import opened Wrappers
  import opened Chars
  import opened EmailModel

  datatype Header = Header(name: string, value: string)

  /** The `body` object of a part: base64url `data`, an `attachmentId`, a `size`, each optional. */
  datatype PartBody = PartBody(data: Option<string>, attachmentId: Option<string>, size: Option<int>)

  /** A MIME part; `parts` is absent (`NoParts`) or a list of nested parts, possibly empty. */
  datatype Part = Part(mimeType: string, filename: Option<string>, headers: seq<Header>, body: PartBody, parts: Parts)
  datatype Parts = NoParts | Parts(list: seq<Part>)

  /** A message as `fetch_emails` returns it; `labelIds` may be absent. */
  datatype GmailMessage = GmailMessage(id: string, threadId: string, payload: Part, labelIds: Option<seq<string>>)

  const PlainText: string := "text/plain"

  // ---------------------------------------------------------------- headers

  /** The value of the first header whose lower-cased name is `name`, or "" if there is none. */
  function HeaderValue(headers: seq<Header>, name: string): (v: string)
    ensures v == "" || exists i :: 0 <= i < |headers| && headers[i].value == v
  {
    if headers == [] then ""
    else if Lower(headers[0].name) == name then headers[0].value
    else HeaderValue(headers[1..], name)
  }

  ghost predicate FirstHeaderMatch(headers: seq<Header>, name: string, i: int)
  {
    0 <= i < |headers| && Lower(headers[i].name) == name &&
    forall j :: 0 <= j < i ==> Lower(headers[j].name) != name
  }

  lemma {:induction false} HeaderValueSpec(headers: seq<Header>, name: string)
    ensures (forall i :: 0 <= i < |headers| ==> Lower(headers[i].name) != name) ==> HeaderValue(headers, name) == ""
    ensures forall i :: FirstHeaderMatch(headers, name, i) ==> HeaderValue(headers, name) == headers[i].value
  {
    if headers != [] && Lower(headers[0].name) != name {
      HeaderValueSpec(headers[1..], name);
      assert HeaderValue(headers, name) == HeaderValue(headers[1..], name);
      forall i | FirstHeaderMatch(headers, name, i)
        ensures HeaderValue(headers, name) == headers[i].value
      {
        assert i > 0 && headers[1..][i - 1] == headers[i];
        forall j | 0 <= j < i - 1
          ensures Lower(headers[1..][j].name) != name
        {
          assert headers[1..][j] == headers[j + 1];
        }
        assert FirstHeaderMatch(headers[1..], name, i - 1);
      }
    }
  }

  // ---------------------------------------------------------------- tree membership

  /** `q` is `p` or lies somewhere below it. */
  ghost predicate InTree(q: Part, p: Part)
    decreases p, 1
  {
    q == p || InSubtrees(q, p)
  }

  /** `q` lies strictly below `p` (in one of its nested parts, at any depth). */
  ghost predicate InSubtrees(q: Part, p: Part)
    decreases p, 0
  {
    p.parts.Parts? && exists i :: 0 <= i < |p.parts.list| && InTree(q, p.parts.list[i])
  }

  // ---------------------------------------------------------------- body

  /** A part that ends the body search's loop: plain text with data, or a non-plain-text part with nested parts. */
  predicate Decisive(q: Part)
  {
    if q.mimeType == PlainText then q.body.data.Some? else q.parts.Parts?
  }

  /** `_get_email_body`: the decoded text of the plain-text part the search settles on, or "". */
  function EmailBody(p: Part, decode: string -> string): string
    decreases p, 1
  {
    match p.parts
    case Parts(ps) => BodyFromParts(p, 0, decode)
    case NoParts =>
      if p.mimeType == PlainText && p.body.data.Some? then decode(p.body.data.value) else ""
  }

  /** The loop over `p`'s nested parts from index `i` on. */
  function BodyFromParts(p: Part, i: nat, decode: string -> string): string
    requires p.parts.Parts? && i <= |p.parts.list|
    decreases p, 0, |p.parts.list| - i
  {
    if i == |p.parts.list| then ""
    else
      var q := p.parts.list[i];
      if q.mimeType == PlainText then
        if q.body.data.Some? then decode(q.body.data.value) else BodyFromParts(p, i + 1, decode)
      else if q.parts.Parts? then
        assert q in p.parts.list;
        EmailBody(q, decode)
      else BodyFromParts(p, i + 1, decode)
  }

  lemma {:induction false} BodyFromPartsFirstDecisive(p: Part, i: nat, decode: string -> string)
    requires p.parts.Parts? && i <= |p.parts.list|
    ensures (forall j :: i <= j < |p.parts.list| ==> !Decisive(p.parts.list[j])) ==> BodyFromParts(p, i, decode) == ""
    ensures forall k :: i <= k < |p.parts.list| && Decisive(p.parts.list[k]) &&
                        (forall j :: i <= j < k ==> !Decisive(p.parts.list[j])) ==>
              var q := p.parts.list[k];
              BodyFromParts(p, i, decode) == if q.mimeType == PlainText then decode(q.body.data.value) else EmailBody(q, decode)
    decreases |p.parts.list| - i
  {
    if i < |p.parts.list| && !Decisive(p.parts.list[i]) {
      BodyFromPartsFirstDecisive(p, i + 1, decode);
    }
  }

  /**
   * For a multipart payload the body is decided by the FIRST decisive nested
   * part alone: its decoded data when it is plain text, otherwise whatever the
   * search inside it yields, even "". With no decisive part the body is "".
   */
  lemma MultipartBodyIsFirstDecisive(p: Part, decode: string -> string)
    requires p.parts.Parts?
    ensures (forall j :: 0 <= j < |p.parts.list| ==> !Decisive(p.parts.list[j])) ==> EmailBody(p, decode) == ""
    ensures forall k :: 0 <= k < |p.parts.list| && Decisive(p.parts.list[k]) &&
                        (forall j :: 0 <= j < k ==> !Decisive(p.parts.list[j])) ==>
              var q := p.parts.list[k];
              EmailBody(p, decode) == if q.mimeType == PlainText then decode(q.body.data.value) else EmailBody(q, decode)
  {
    BodyFromPartsFirstDecisive(p, 0, decode);
  }

  /** `d` is the `data` of a plain-text part somewhere in the tree rooted at `p`. */
  ghost predicate PlainDataIn(p: Part, d: string)
  {
    exists q :: InTree(q, p) && q.mimeType == PlainText && q.body.data == Some(d)
  }

  lemma {:induction false} EmailBodyFromTree(p: Part, decode: string -> string)
    ensures EmailBody(p, decode) == "" || exists d :: PlainDataIn(p, d) && EmailBody(p, decode) == decode(d)
    decreases p, 1
  {
    if p.parts.Parts? {
      BodyFromPartsFromTree(p, 0, decode);
    } else if p.mimeType == PlainText && p.body.data.Some? {
      assert InTree(p, p);
      assert PlainDataIn(p, p.body.data.value);
    }
  }

  lemma {:induction false} BodyFromPartsFromTree(p: Part, i: nat, decode: string -> string)
    requires p.parts.Parts? && i <= |p.parts.list|
    ensures BodyFromParts(p, i, decode) == "" || exists d :: PlainDataIn(p, d) && BodyFromParts(p, i, decode) == decode(d)
    decreases p, 0, |p.parts.list| - i
  {
    if i < |p.parts.list| {
      var q := p.parts.list[i];
      assert q in p.parts.list;
      if q.mimeType == PlainText {
        if q.body.data.Some? {
          assert InTree(q, q);
          assert InSubtrees(q, p);
          assert PlainDataIn(p, q.body.data.value);
        } else {
          BodyFromPartsFromTree(p, i + 1, decode);
        }
      } else if q.parts.Parts? {
        EmailBodyFromTree(q, decode);
        if EmailBody(q, decode) != "" {
          var d :| PlainDataIn(q, d) && EmailBody(q, decode) == decode(d);
          var r :| InTree(r, q) && r.mimeType == PlainText && r.body.data == Some(d);
          assert InSubtrees(r, p);
          assert PlainDataIn(p, d);
        }
      } else {
        BodyFromPartsFromTree(p, i + 1, decode);
      }
    }
  }

  /** With no plain-text part carrying data anywhere in the tree, the body is "". */
  lemma NoPlainTextMeansEmptyBody(p: Part, decode: string -> string)
    requires forall d :: !PlainDataIn(p, d)
    ensures EmailBody(p, decode) == ""
  {
    EmailBodyFromTree(p, decode);
  }

  /**
   * A payload whose first part is a multipart holding no text, followed by a
   * plain-text part with data: the loop returns the nested search's "" and
   * never reaches the text part.
   */
  lemma NestedMultipartShortCircuits(decode: string -> string)
    ensures var empty := PartBody(None, None, None);
            var inner := Part("multipart/mixed", None, [], empty, Parts([Part("image/png", Some("a.png"), [], empty, NoParts)]));
            var text := Part(PlainText, None, [], PartBody(Some("aGk="), None, None), NoParts);
            var payload := Part("multipart/mixed", None, [], empty, Parts([inner, text]));
            EmailBody(payload, decode) == ""
  {
    var empty := PartBody(None, None, None);
    var inner := Part("multipart/mixed", None, [], empty, Parts([Part("image/png", Some("a.png"), [], empty, NoParts)]));
    var text := Part(PlainText, None, [], PartBody(Some("aGk="), None, None), NoParts);
    var payload := Part("multipart/mixed", None, [], empty, Parts([inner, text]));
    assert BodyFromParts(inner, 1, decode) == "";
    assert EmailBody(inner, decode) == "";
    assert BodyFromParts(payload, 0, decode) == EmailBody(inner, decode);
  }

  // ---------------------------------------------------------------- attachments

  /** The attachment a single part contributes: one when it has a non-empty filename and an attachment id. */
  function OwnAttachment(q: Part): (r: seq<Attachment>)
    ensures |r| <= 1
  {
    if q.filename.Some? && q.filename.value != "" && q.body.attachmentId.Some? then
      [Attachment(q.body.attachmentId.value, q.filename.value, q.mimeType, q.body.size.GetOr(0), None)]
    else []
  }

  /** What `_get_attachments(p)` returns: for each nested part in order, its own attachment, then its subtree's. */
  function AttachmentsIn(p: Part): seq<Attachment>
    decreases p, 1
  {
    match p.parts
    case NoParts => []
    case Parts(ps) => AttachmentsInFirst(p, |ps|)
  }

  /** The result after the loop has handled the first `n` nested parts of `p`. */
  function AttachmentsInFirst(p: Part, n: nat): seq<Attachment>
    requires p.parts.Parts? && n <= |p.parts.list|
    decreases p, 0, n
  {
    if n == 0 then []
    else
      var q := p.parts.list[n - 1];
      assert q in p.parts.list;
      AttachmentsInFirst(p, n - 1) + OwnAttachment(q) + (if q.parts.Parts? then AttachmentsIn(q) else [])
  }

  /** `_get_attachments`: the recursive loop that appends and extends the result list. */
  method GetAttachments(payload: Part, messageId: string) returns (atts: seq<Attachment>)
    ensures atts == AttachmentsIn(payload)
    decreases payload
  {
    atts := [];
    if payload.parts.Parts? {
      var ps := payload.parts.list;
      var i := 0;
      while i < |ps|
        invariant 0 <= i <= |ps|
        invariant atts == AttachmentsInFirst(payload, i)
      {
        var part := ps[i];
        assert AttachmentsInFirst(payload, i + 1) ==
               AttachmentsInFirst(payload, i) + OwnAttachment(part) + (if part.parts.Parts? then AttachmentsIn(part) else []);
        if part.filename.Some? && part.filename.value != "" {
          if part.body.attachmentId.Some? {
            var attachment := Attachment(part.body.attachmentId.value, part.filename.value, part.mimeType,
                                         part.body.size.GetOr(0), None);
            atts := atts + [attachment];
          }
        }
        assert atts == AttachmentsInFirst(payload, i) + OwnAttachment(part);
        if part.parts.Parts? {
          assert part in payload.parts.list;
          var nested := GetAttachments(part, messageId);
          atts := atts + nested;
        }
        i := i + 1;
      }
    }
  }

  /**
   * Every collected attachment comes from a part strictly below the payload
   * with a non-empty filename and an attachment id; its content is None and its
   * size is the part's size, 0 when absent.
   */
  lemma {:induction false} AttachmentsSound(p: Part, a: Attachment)
    requires a in AttachmentsIn(p)
    ensures a.content == None && a.filename != ""
    ensures exists q :: InSubtrees(q, p) && OwnAttachment(q) == [a]
    decreases p, 1
  {
    AttachmentsInFirstSound(p, |p.parts.list|, a);
  }

  lemma {:induction false} AttachmentsInFirstSound(p: Part, n: nat, a: Attachment)
    requires p.parts.Parts? && n <= |p.parts.list|
    requires a in AttachmentsInFirst(p, n)
    ensures a.content == None && a.filename != ""
    ensures exists q :: InSubtrees(q, p) && OwnAttachment(q) == [a]
    decreases p, 0, n
  {
    var q := p.parts.list[n - 1];
    assert q in p.parts.list;
    if a in AttachmentsInFirst(p, n - 1) {
      AttachmentsInFirstSound(p, n - 1, a);
    } else if a in OwnAttachment(q) {
      assert InTree(q, p.parts.list[n - 1]);
      assert InSubtrees(q, p);
    } else {
      assert q.parts.Parts? && a in AttachmentsIn(q);
      AttachmentsSound(q, a);
      var r :| InSubtrees(r, q) && OwnAttachment(r) == [a];
      assert InTree(r, p.parts.list[n - 1]);
      assert InSubtrees(r, p);
    }
  }

  /** Conversely, every part strictly below the payload that qualifies contributes its attachment. */
  lemma {:induction false} AttachmentsComplete(p: Part, q: Part)
    requires InSubtrees(q, p) && OwnAttachment(q) != []
    ensures OwnAttachment(q)[0] in AttachmentsIn(p)
    decreases p, 1
  {
    var i :| 0 <= i < |p.parts.list| && InTree(q, p.parts.list[i]);
    AttachmentsInFirstComplete(p, |p.parts.list|, i, q);
  }

  lemma {:induction false} AttachmentsInFirstComplete(p: Part, n: nat, i: nat, q: Part)
    requires p.parts.Parts? && i < n <= |p.parts.list|
    requires InTree(q, p.parts.list[i]) && OwnAttachment(q) != []
    ensures OwnAttachment(q)[0] in AttachmentsInFirst(p, n)
    decreases p, 0, n
  {
    var c := p.parts.list[n - 1];
    assert c in p.parts.list;
    if i < n - 1 {
      AttachmentsInFirstComplete(p, n - 1, i, q);
    } else if q == c {
      assert OwnAttachment(q)[0] in OwnAttachment(c);
    } else {
      assert InSubtrees(q, c);
      AttachmentsComplete(c, q);
    }
  }

  /** Handling more nested parts only appends to the result. */
  lemma {:induction false} AttachmentsInFirstExtends(p: Part, m: nat, n: nat)
    requires p.parts.Parts? && m <= n <= |p.parts.list|
    ensures |AttachmentsInFirst(p, m)| <= |AttachmentsInFirst(p, n)|
    ensures AttachmentsInFirst(p, n)[..|AttachmentsInFirst(p, m)|] == AttachmentsInFirst(p, m)
    decreases n
  {
    if m < n {
      AttachmentsInFirstExtends(p, m, n - 1);
      var q := p.parts.list[n - 1];
      assert q in p.parts.list;
      var before := AttachmentsInFirst(p, n - 1);
      var more := OwnAttachment(q) + (if q.parts.Parts? then AttachmentsIn(q) else []);
      assert AttachmentsInFirst(p, n) == before + more;
      assert (before + more)[..|AttachmentsInFirst(p, m)|] == before[..|AttachmentsInFirst(p, m)|];
    }
  }

  /**
   * Order of the walk: for each nested part, its own attachment comes
   * immediately before the attachments of its subtree, and the result so far
   * (earlier siblings included) is a prefix of the final list.
   */
  lemma OwnBeforeNested(p: Part, i: nat)
    requires p.parts.Parts? && i < |p.parts.list|
    ensures var q := p.parts.list[i];
            var upTo := AttachmentsInFirst(p, i) + OwnAttachment(q) + (if q.parts.Parts? then AttachmentsIn(q) else []);
            |upTo| <= |AttachmentsIn(p)| && AttachmentsIn(p)[..|upTo|] == upTo
  {
    AttachmentsInFirstExtends(p, i + 1, |p.parts.list|);
    var q := p.parts.list[i];
    assert q in p.parts.list;
  }

  // ---------------------------------------------------------------- parse_email

  /**
   * What `parse_email` builds from a message: subject, sender and date header
   * by case-insensitive lookup, the body and attachments from the payload, and
   * labels defaulting to []. `parseDate` stands for the date parsing with its
   * wall-clock fallback.
   */
  ghost predicate ParsedFrom(email: EmailMessage, msg: GmailMessage, decode: string -> string, parseDate: string -> string)
  {
    && email.id == msg.id && email.threadId == msg.threadId
    && email.subject == HeaderValue(msg.payload.headers, "subject")
    && email.fromEmail == HeaderValue(msg.payload.headers, "from")
    && email.date == parseDate(HeaderValue(msg.payload.headers, "date"))
    && email.body == EmailBody(msg.payload, decode)
    && email.attachments == AttachmentsIn(msg.payload)
    && email.labels == msg.labelIds.GetOr([])
  }

  /** `parse_email`: the parsed fields, with `processed` still False. */
  method ParseEmail(msg: GmailMessage, decode: string -> string, parseDate: string -> string)
    returns (email: EmailMessage)
    ensures ParsedFrom(email, msg, decode, parseDate)
    ensures !email.processed
  {
    var headers := msg.payload.headers;
    var subject := HeaderValue(headers, "subject");
    var fromEmail := HeaderValue(headers, "from");
    var dateStr := HeaderValue(headers, "date");
    var date := parseDate(dateStr);
    var body := EmailBody(msg.payload, decode);
    var attachments := GetAttachments(msg.payload, msg.id);
    email := EmailMessage(msg.id, msg.threadId, subject, fromEmail, date, body, attachments,
                          msg.labelIds.GetOr([]), false);
  }
}
