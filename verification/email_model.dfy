/**
 * The email records of the backend: an attachment descriptor and a parsed
 * message, with the message's dictionary serialisation (which truncates long
 * bodies and never carries attachment content).
 */
module EmailModel {
  import opened Wrappers
  import opened Values

  type Bytes = seq<bv8>

  /** An attachment; `content` defaults to None (it is fetched separately, if at all). */
  datatype Attachment = Attachment(
    id: string,
    filename: string,
    mimeType: string,
    size: int,
    content: Option<Bytes> := None)

  /**
   * A parsed message. `date` is the timestamp in the ISO-8601 form that
   * `to_dict` writes; `processed` defaults to False.
   */
  datatype EmailMessage = EmailMessage(
    id: string,
    threadId: string,
    subject: string,
    fromEmail: string,
    date: string,
    body: string,
    attachments: seq<Attachment>,
    labels: seq<string>,
    processed: bool := false)

  /** Bodies longer than this are cut in the dictionary form. */
  const PreviewLimit: nat := 500
  const Ellipsis: string := "..."

  const AttachmentKeys: set<string> := {"id", "filename", "mime_type", "size"}
  const EmailKeys: set<string> :=
    {"id", "thread_id", "subject", "from_email", "date", "body", "attachments", "labels", "processed"}

  /** Constructed without `content`, an attachment has none. */
  lemma AttachmentDefaults(id: string, filename: string, mimeType: string, size: int)
    ensures Attachment(id, filename, mimeType, size).content == None
  {
  }

  /** Constructed without `processed`, a message is not processed. */
  lemma MessageDefaults(id: string, threadId: string, subject: string, fromEmail: string, date: string,
                        body: string, attachments: seq<Attachment>, labels: seq<string>)
    ensures !EmailMessage(id, threadId, subject, fromEmail, date, body, attachments, labels).processed
  {
  }

  /** The body as `to_dict` writes it: unchanged up to 500 characters, else 500 characters and "...". */
  function PreviewBody(body: string): (r: string)
    ensures |body| <= PreviewLimit ==> r == body
    ensures |body| > PreviewLimit ==> |r| == PreviewLimit + |Ellipsis| && r[PreviewLimit..] == Ellipsis
    ensures r[..if |body| <= PreviewLimit then |body| else PreviewLimit] ==
            body[..if |body| <= PreviewLimit then |body| else PreviewLimit]
  {
    if |body| > PreviewLimit then body[..PreviewLimit] + Ellipsis else body
  }

  /** Truncating a truncated body changes nothing: the 503-character preview is its own preview. */
  lemma PreviewIdempotent(body: string)
    ensures PreviewBody(PreviewBody(body)) == PreviewBody(body)
    ensures |PreviewBody(body)| <= PreviewLimit + |Ellipsis|
  {
    var r := PreviewBody(body);
    if |body| > PreviewLimit {
      assert r[..PreviewLimit] == body[..PreviewLimit];
    }
  }

  /** One entry of the `attachments` list in `to_dict`: four keys, never `content`. */
  function AttachmentToDict(a: Attachment): (d: Dict)
    ensures d.Keys == AttachmentKeys && "content" !in d
  {
    map["id" := VStr(a.id), "filename" := VStr(a.filename), "mime_type" := VStr(a.mimeType), "size" := VInt(a.size)]
  }

  function AttachmentsToList(atts: seq<Attachment>): (vs: seq<Value>)
    ensures |vs| == |atts|
    ensures forall i :: 0 <= i < |atts| ==> vs[i] == VDict(AttachmentToDict(atts[i]))
  {
    if atts == [] then [] else [VDict(AttachmentToDict(atts[0]))] + AttachmentsToList(atts[1..])
  }

  /** `EmailMessage.to_dict`. */
  function EmailToDict(e: EmailMessage): (d: Dict)
    ensures d.Keys == EmailKeys
  {
    map[
      "id" := VStr(e.id),
      "thread_id" := VStr(e.threadId),
      "subject" := VStr(e.subject),
      "from_email" := VStr(e.fromEmail),
      "date" := VStr(e.date),
      "body" := VStr(PreviewBody(e.body)),
      "attachments" := VList(AttachmentsToList(e.attachments)),
      "labels" := VList(StringsToList(e.labels)),
      "processed" := VBool(e.processed)]
  }

  function StringsToList(ss: seq<string>): (vs: seq<Value>)
    ensures |vs| == |ss|
    ensures forall i :: 0 <= i < |ss| ==> vs[i] == VStr(ss[i])
  {
    if ss == [] then [] else [VStr(ss[0])] + StringsToList(ss[1..])
  }

  function ListToStrings(vs: seq<Value>): Option<seq<string>>
  {
    if vs == [] then Some([])
    else if !vs[0].VStr? then None
    else match ListToStrings(vs[1..])
      case None => None
      case Some(rest) => Some([vs[0].s] + rest)
  }

  function AttachmentFromDict(d: Dict): Option<Attachment>
  {
    if AttachmentKeys <= d.Keys && d["id"].VStr? && d["filename"].VStr? && d["mime_type"].VStr? && d["size"].VInt?
    then Some(Attachment(d["id"].s, d["filename"].s, d["mime_type"].s, d["size"].i))
    else None
  }

  function ListToAttachments(vs: seq<Value>): Option<seq<Attachment>>
  {
    if vs == [] then Some([])
    else if !vs[0].VDict? || AttachmentFromDict(vs[0].entries).None? then None
    else match ListToAttachments(vs[1..])
      case None => None
      case Some(rest) => Some([AttachmentFromDict(vs[0].entries).value] + rest)
  }

  /** Reads a message back from its dictionary form. */
  function EmailFromDict(d: Dict): Option<EmailMessage>
  {
    if EmailKeys <= d.Keys
       && d["id"].VStr? && d["thread_id"].VStr? && d["subject"].VStr? && d["from_email"].VStr?
       && d["date"].VStr? && d["body"].VStr? && d["attachments"].VList? && d["labels"].VList?
       && d["processed"].VBool?
       && ListToAttachments(d["attachments"].items).Some? && ListToStrings(d["labels"].items).Some?
    then Some(EmailMessage(d["id"].s, d["thread_id"].s, d["subject"].s, d["from_email"].s, d["date"].s,
                           d["body"].s, ListToAttachments(d["attachments"].items).value,
                           ListToStrings(d["labels"].items).value, d["processed"].b))
    else None
  }

  /** Attachments as `to_dict` exposes them: same order and fields, content dropped. */
  function WithoutContent(atts: seq<Attachment>): (r: seq<Attachment>)
    ensures |r| == |atts|
    ensures forall i :: 0 <= i < |atts| ==> r[i] == atts[i].(content := None)
  {
    if atts == [] then [] else [atts[0].(content := None)] + WithoutContent(atts[1..])
  }

  lemma {:induction false} StringsRoundTrip(ss: seq<string>)
    ensures ListToStrings(StringsToList(ss)) == Some(ss)
  {
    if ss != [] {
      var vs := StringsToList(ss);
      assert vs == [VStr(ss[0])] + StringsToList(ss[1..]);
      assert vs[1..] == StringsToList(ss[1..]);
      StringsRoundTrip(ss[1..]);
      assert ListToStrings(vs) == Some([ss[0]] + ss[1..]);
      assert [ss[0]] + ss[1..] == ss;
    }
  }

  lemma {:induction false} AttachmentsRoundTrip(atts: seq<Attachment>)
    ensures ListToAttachments(AttachmentsToList(atts)) == Some(WithoutContent(atts))
  {
    if atts != [] {
      AttachmentsRoundTrip(atts[1..]);
      assert AttachmentsToList(atts)[1..] == AttachmentsToList(atts[1..]);
      assert WithoutContent(atts) == [atts[0].(content := None)] + WithoutContent(atts[1..]);
    }
  }

  /** Proof step of `EmailDictRoundTrip`: the value stored under each key. */
  lemma EmailDictEntries(e: EmailMessage)
    ensures var d := EmailToDict(e);
            && d["id"] == VStr(e.id) && d["thread_id"] == VStr(e.threadId)
            && d["subject"] == VStr(e.subject) && d["from_email"] == VStr(e.fromEmail)
            && d["date"] == VStr(e.date) && d["body"] == VStr(PreviewBody(e.body))
            && d["attachments"] == VList(AttachmentsToList(e.attachments))
            && d["labels"] == VList(StringsToList(e.labels))
            && d["processed"] == VBool(e.processed)
  {
  }

  /**
   * Everything but the body tail and attachment content survives `to_dict`:
   * reading the dictionary back gives the message with its previewed body, its
   * attachments (same length and order) without content, and labels and
   * `processed` unchanged.
   */
  lemma EmailDictRoundTrip(e: EmailMessage)
    ensures EmailFromDict(EmailToDict(e)) ==
            Some(e.(body := PreviewBody(e.body), attachments := WithoutContent(e.attachments)))
  {
    AttachmentsRoundTrip(e.attachments);
    StringsRoundTrip(e.labels);
    EmailDictEntries(e);
  }
}
