/**
 * `EmailProcessor`: turns fetched Gmail messages into parsed emails paired
 * with the SKU requests found in their bodies. The Gmail client is abstracted:
 * the fetched messages are a parameter and the ids passed to `mark_as_read`
 * are returned, in call order.
 */
module EmailProcessor {
  import opened Wrappers
  import opened EmailModel
  import opened SkuModel
  import opened SkuScanner
  import opened GmailParsing

  /** `_extract_skus_from_text`: one record per SKU match, appended in match order. */
  method ExtractSkusFromText(text: string) returns (skus: seq<SkuInfo>)
    ensures skus == ExtractedSkus(text)
  {
    var matches := SkuMatches(text);
    ghost var all := ExtractedSkus(text);
    skus := [];
    var k := 0;
    while k < |matches|
      invariant k <= |matches| == |all|
      invariant skus == all[..k]
    {
      var m := matches[k];
      var sku := SkuFromMatch(text, m);
      assert all[..k + 1] == all[..k] + [sku];
      skus := skus + [sku];
      k := k + 1;
    }
    assert all[..k] == all;
  }

  /** `extract_skus`: only the body is scanned; attachments are not. */
  method ExtractSkus(email: EmailMessage) returns (skus: seq<SkuInfo>)
    ensures skus == ExtractedSkus(email.body)
  {
    skus := ExtractSkusFromText(email.body);
  }

  /** The ids `process_emails` marks as read: those of the emails with at least one SKU, in order. */
  function MarkedIds(results: seq<(EmailMessage, seq<SkuInfo>)>): (ids: seq<string>)
    ensures |ids| <= |results|
    ensures ids == [] <==> forall i :: 0 <= i < |results| ==> results[i].1 == []
  {
    if results == [] then []
    else (if results[0].1 != [] then [results[0].0.id] else []) + MarkedIds(results[1..])
  }

  /** One result pair of `process_emails`. */
  ghost predicate ProcessedFrom(r: (EmailMessage, seq<SkuInfo>), msg: GmailMessage,
                                decode: string -> string, parseDate: string -> string)
  {
    && ParsedFrom(r.0, msg, decode, parseDate)
    && r.1 == ExtractedSkus(r.0.body)
    && r.0.processed == (r.1 != [])
  }

  /**
   * `process_emails` over the messages the client fetched: one pair per
   * message in fetch order; an email is marked processed, and its id marked
   * read, exactly when SKUs were found in it.
   */
  method ProcessEmails(fetched: seq<GmailMessage>, decode: string -> string, parseDate: string -> string)
    returns (results: seq<(EmailMessage, seq<SkuInfo>)>, readIds: seq<string>)
    ensures |results| == |fetched|
    ensures forall i :: 0 <= i < |fetched| ==> ProcessedFrom(results[i], fetched[i], decode, parseDate)
    ensures readIds == MarkedIds(results)
  {
    results := [];
    readIds := [];
    var i := 0;
    while i < |fetched|
      invariant i <= |fetched|
      invariant |results| == i
      invariant forall j :: 0 <= j < i ==> ProcessedFrom(results[j], fetched[j], decode, parseDate)
      invariant readIds == MarkedIds(results)
    {
      var email := ParseEmail(fetched[i], decode, parseDate);
      var skus := ExtractSkus(email);
      if skus != [] {
        email := email.(processed := true);
        readIds := readIds + [email.id];
      }
      MarkedIdsAppend(results, (email, skus));
      results := results + [(email, skus)];
      i := i + 1;
    }
  }

  lemma {:induction false} MarkedIdsAppend(results: seq<(EmailMessage, seq<SkuInfo>)>, r: (EmailMessage, seq<SkuInfo>))
    ensures MarkedIds(results + [r]) == MarkedIds(results) + (if r.1 != [] then [r.0.id] else [])
  {
    if results != [] {
      assert (results + [r])[1..] == results[1..] + [r];
      MarkedIdsAppend(results[1..], r);
    } else {
      assert MarkedIds([r]) == (if r.1 != [] then [r.0.id] else []) + MarkedIds([]);
    }
  }

  /** An id is marked read exactly when its email was found to hold SKUs. */
  lemma {:induction false} MarkedIdsSpec(results: seq<(EmailMessage, seq<SkuInfo>)>)
    ensures forall id :: id in MarkedIds(results) <==> exists i :: 0 <= i < |results| && results[i].1 != [] && results[i].0.id == id
  {
    if results != [] {
      MarkedIdsSpec(results[1..]);
      forall id
        ensures id in MarkedIds(results) <==> exists i :: 0 <= i < |results| && results[i].1 != [] && results[i].0.id == id
      {
        if id in MarkedIds(results[1..]) {
          var i :| 0 <= i < |results[1..]| && results[1..][i].1 != [] && results[1..][i].0.id == id;
          assert results[i + 1] == results[1..][i];
        }
        if exists i :: 0 <= i < |results| && results[i].1 != [] && results[i].0.id == id {
          var i :| 0 <= i < |results| && results[i].1 != [] && results[i].0.id == id;
          if i > 0 {
            assert results[1..][i - 1] == results[i];
          }
        }
      }
    }
  }
}
