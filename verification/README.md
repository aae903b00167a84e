# Email-to-ERP backend, modelled in Dafny

This project models the core of the email-to-ERP demo backend. The backend:

- reads order emails from Gmail;
- extracts SKU requests from their bodies with two regular expressions;
- validates the requests against an in-memory inventory;
- files the accepted ones with a mock ERP;
- answers the sender with a notification.

The modules follow the source's files:

- `sku_model.dfy` and `email_model.dfy` hold the records of `models/sku.py` and `models/email.py`. Their `to_dict` serialisations go into `values.dfy`'s dictionary values, and each has a read-back function and a round-trip lemma.
- `gmail_parsing.dfy` covers the Gmail side of `email_client.py`: the header lookup, the body search over the MIME part tree, the attachment walk and `parse_email`.
- `sku_scanner.dfy` defines `SKU[:\s]+([A-Z0-9\-]+)` and `QTY[:\s]+(\d+)` as matchers.
  - `finditer` and `search` are functions, proved equal to their non-recursive descriptions (leftmost match, resume at the end of each match).
  - It also holds the quantity rule and the record built per match.
- `email_processor.dfy` holds `EmailProcessor`: the extraction loop and `process_emails`.
  - The Gmail client is a parameter: the fetched messages come in as a list.
  - The ids passed to `mark_as_read` are returned, in call order.
- `validator.dfy` holds `InventoryRepository` (its in-memory branch) and `InventoryValidator`.
  - The repository is a class because its methods update its `_mock_inventory` dictionary in place.
  - The validator is a class that holds its repository. Its methods build fresh lists and a fresh dictionary. Its only in-place effect is setting `validated` on the caller's SKU records, and the model returns flagged copies of those records instead.
- `erp.dfy` holds `MockERPClient`, a class over its `entries` map.
- `notification.dfy` holds the two notifications and the mock sender's outbox.
  - A notice is its fixed strings plus a row template.
  - Lemmas read each body back as the list of codes and quantities.
- `chars.dfy`, `decimal.dfy` and `wrappers.dfy` are support modules:
  - ASCII character classes and case folding;
  - decimal rendering and parsing, the parts of Python's `int()` and `str()` on integers that the source uses;
  - an Option type.

## Model

| member | source | states |
|---|---|---|
| `SkuModel.SkuInfoDefaults` | ai_agent_tutorials/ai_3dpygame_r1/email_to_ERP_Agent/backend/models/sku.py:19-31 | omitted constructor arguments default to no source email, not validated, no ERP entry; code and quantity are stored as given |
| `SkuModel.SkuToDict` | ai_agent_tutorials/ai_3dpygame_r1/email_to_ERP_Agent/backend/models/sku.py:33-46 | the dictionary has exactly the five field keys |
| `SkuModel.SkuDictRoundTrip` | ai_agent_tutorials/ai_3dpygame_r1/email_to_ERP_Agent/backend/models/sku.py:40-46 | every SKU field is recovered unchanged from the same-named key |
| `SkuModel.ItemToDict` | ai_agent_tutorials/ai_3dpygame_r1/email_to_ERP_Agent/backend/models/sku.py:76-90 | the dictionary has exactly the six field keys |
| `SkuModel.ItemDictRoundTrip` | ai_agent_tutorials/ai_3dpygame_r1/email_to_ERP_Agent/backend/models/sku.py:83-90 | every inventory item field is recovered unchanged from the same-named key |
| `Values.OptStr` | ai_agent_tutorials/ai_3dpygame_r1/email_to_ERP_Agent/backend/models/sku.py:43-45 | an optional string is stored as None exactly when it is absent |
| `Values.OptStrRoundTrip` | ai_agent_tutorials/ai_3dpygame_r1/email_to_ERP_Agent/backend/models/sku.py:43-45 | an optional string is recovered from its stored value |
| `EmailModel.AttachmentDefaults` | ai_agent_tutorials/ai_3dpygame_r1/email_to_ERP_Agent/backend/models/email.py:20-32 | an attachment constructed without `content` has none |
| `EmailModel.MessageDefaults` | ai_agent_tutorials/ai_3dpygame_r1/email_to_ERP_Agent/backend/models/email.py:49-69 | a message constructed without `processed` is not processed |
| `EmailModel.PreviewBody` | ai_agent_tutorials/ai_3dpygame_r1/email_to_ERP_Agent/backend/models/email.py:84 | a body of at most 500 characters is kept; a longer one becomes its first 500 characters followed by "..." (503 characters) |
| `EmailModel.PreviewIdempotent` | ai_agent_tutorials/ai_3dpygame_r1/email_to_ERP_Agent/backend/models/email.py:84 | previewing a preview changes nothing; a preview never exceeds 503 characters |
| `EmailModel.AttachmentToDict` | ai_agent_tutorials/ai_3dpygame_r1/email_to_ERP_Agent/backend/models/email.py:86-91 | each attachment entry has exactly the keys id, filename, mime_type and size, never content |
| `EmailModel.AttachmentsToList` | ai_agent_tutorials/ai_3dpygame_r1/email_to_ERP_Agent/backend/models/email.py:85-92 | one entry per attachment, same length and order |
| `EmailModel.StringsToList` | ai_agent_tutorials/ai_3dpygame_r1/email_to_ERP_Agent/backend/models/email.py:93 | the labels list is copied element by element |
| `EmailModel.EmailToDict` | ai_agent_tutorials/ai_3dpygame_r1/email_to_ERP_Agent/backend/models/email.py:71-95 | the message dictionary has exactly the nine field keys |
| `EmailModel.WithoutContent` | ai_agent_tutorials/ai_3dpygame_r1/email_to_ERP_Agent/backend/models/email.py:85-92 | the attachments as the dictionary exposes them: same order, content dropped |
| `EmailModel.StringsRoundTrip` | ai_agent_tutorials/ai_3dpygame_r1/email_to_ERP_Agent/backend/models/email.py:93 | the labels are recovered from the dictionary list |
| `EmailModel.AttachmentsRoundTrip` | ai_agent_tutorials/ai_3dpygame_r1/email_to_ERP_Agent/backend/models/email.py:85-92 | the attachment entries read back as the attachments without content, same length and order |
| `EmailModel.EmailDictRoundTrip` | ai_agent_tutorials/ai_3dpygame_r1/email_to_ERP_Agent/backend/models/email.py:71-95 | reading the dictionary back yields the message with its previewed body and content-free attachments; labels and processed unchanged |
| `Chars.Lower` | ai_agent_tutorials/ai_3dpygame_r1/email_to_ERP_Agent/backend/email_processor/email_client.py:135-137 | lower-casing keeps the length and maps each character (ASCII case folding) |
| `GmailParsing.HeaderValue` | ai_agent_tutorials/ai_3dpygame_r1/email_to_ERP_Agent/backend/email_processor/email_client.py:135-137 | the value is "" or the value of some header; `HeaderValueSpec` pins down which one |
| `GmailParsing.HeaderValueSpec` | ai_agent_tutorials/ai_3dpygame_r1/email_to_ERP_Agent/backend/email_processor/email_client.py:135-137 | the lookup yields the value of the first header whose lower-cased name matches, or "" when none does |
| `GmailParsing.EmailBody` | ai_agent_tutorials/ai_3dpygame_r1/email_to_ERP_Agent/backend/email_processor/email_client.py:164-187 | the body search; characterised by `MultipartBodyIsFirstDecisive`, `EmailBodyFromTree` and `NoPlainTextMeansEmptyBody` |
| `GmailParsing.BodyFromParts` | ai_agent_tutorials/ai_3dpygame_r1/email_to_ERP_Agent/backend/email_processor/email_client.py:175-181 | the loop over the nested parts; characterised by `BodyFromPartsFirstDecisive` and `BodyFromPartsFromTree` |
| `GmailParsing.BodyFromPartsFirstDecisive` | ai_agent_tutorials/ai_3dpygame_r1/email_to_ERP_Agent/backend/email_processor/email_client.py:175-181 | the loop from index i returns for the first decisive part (plain text with data, or a non-text part with nested parts) and "" when there is none |
| `GmailParsing.MultipartBodyIsFirstDecisive` | ai_agent_tutorials/ai_3dpygame_r1/email_to_ERP_Agent/backend/email_processor/email_client.py:174-181 | a multipart body is decided by its first decisive part alone, even when the nested search yields "" |
| `GmailParsing.EmailBodyFromTree` | ai_agent_tutorials/ai_3dpygame_r1/email_to_ERP_Agent/backend/email_processor/email_client.py:164-187 | the body is "" or the decoding of the data of some plain-text part in the tree |
| `GmailParsing.BodyFromPartsFromTree` | ai_agent_tutorials/ai_3dpygame_r1/email_to_ERP_Agent/backend/email_processor/email_client.py:175-181 | the loop's result is "" or the decoding of some plain-text data below the payload |
| `GmailParsing.NoPlainTextMeansEmptyBody` | ai_agent_tutorials/ai_3dpygame_r1/email_to_ERP_Agent/backend/email_processor/email_client.py:174-187 | with no plain-text part carrying data the body is "" |
| `GmailParsing.NestedMultipartShortCircuits` | ai_agent_tutorials/ai_3dpygame_r1/email_to_ERP_Agent/backend/email_processor/email_client.py:180-181 | a leading multipart part without text ends the search with "" even though a later plain-text part has data |
| `GmailParsing.OwnAttachment` | ai_agent_tutorials/ai_3dpygame_r1/email_to_ERP_Agent/backend/email_processor/email_client.py:204-213 | a part contributes at most one attachment |
| `GmailParsing.AttachmentsIn` | ai_agent_tutorials/ai_3dpygame_r1/email_to_ERP_Agent/backend/email_processor/email_client.py:189-218 | the attachment walk; characterised by `AttachmentsSound`, `AttachmentsComplete` and `OwnBeforeNested` |
| `GmailParsing.GetAttachments` | ai_agent_tutorials/ai_3dpygame_r1/email_to_ERP_Agent/backend/email_processor/email_client.py:189-218 | the recursive loop returns exactly the walk of the part tree |
| `GmailParsing.AttachmentsSound` | ai_agent_tutorials/ai_3dpygame_r1/email_to_ERP_Agent/backend/email_processor/email_client.py:204-213 | every attachment comes from a part strictly below the payload with a non-empty filename and an attachment id; content None |
| `GmailParsing.AttachmentsInFirstSound` | ai_agent_tutorials/ai_3dpygame_r1/email_to_ERP_Agent/backend/email_processor/email_client.py:203-216 | the same for the result after the loop has handled the first n parts |
| `GmailParsing.AttachmentsComplete` | ai_agent_tutorials/ai_3dpygame_r1/email_to_ERP_Agent/backend/email_processor/email_client.py:202-216 | every qualifying part at any depth contributes its attachment |
| `GmailParsing.AttachmentsInFirstComplete` | ai_agent_tutorials/ai_3dpygame_r1/email_to_ERP_Agent/backend/email_processor/email_client.py:203-216 | the same for the first n parts of the loop |
| `GmailParsing.AttachmentsInFirstExtends` | ai_agent_tutorials/ai_3dpygame_r1/email_to_ERP_Agent/backend/email_processor/email_client.py:213-216 | handling further parts only appends to the result |
| `GmailParsing.OwnBeforeNested` | ai_agent_tutorials/ai_3dpygame_r1/email_to_ERP_Agent/backend/email_processor/email_client.py:203-216 | a part's own attachment comes immediately before its subtree's, and the result so far is a prefix of the final list |
| `GmailParsing.ParseEmail` | ai_agent_tutorials/ai_3dpygame_r1/email_to_ERP_Agent/backend/email_processor/email_client.py:123-162 | subject, sender and date from the first matching header, body and attachments from the payload, labels defaulting to [], processed False |
| `SkuScanner.KeywordMatchAt` | ai_agent_tutorials/ai_3dpygame_r1/email_to_ERP_Agent/backend/email_processor/email_client.py:360-361 | a match at a position is the keyword in any case, one or more separators, and a maximal run of value characters |
| `SkuScanner.ValidSpanIsFound` | ai_agent_tutorials/ai_3dpygame_r1/email_to_ERP_Agent/backend/email_processor/email_client.py:360-364 | conversely every such span is what the pattern matches at its start, so a position has at most one match |
| `SkuScanner.CodeAndDigitsDisjoint` | ai_agent_tutorials/ai_3dpygame_r1/email_to_ERP_Agent/backend/email_processor/email_client.py:360-361 | neither value class contains a separator, so the separator run never backtracks |
| `SkuScanner.PatternIsMatcher` | ai_agent_tutorials/ai_3dpygame_r1/email_to_ERP_Agent/backend/email_processor/email_client.py:360-361 | each pattern finds spans that start where it is tried and end inside the text |
| `SkuScanner.FindAll` | ai_agent_tutorials/ai_3dpygame_r1/email_to_ERP_Agent/backend/email_processor/email_client.py:364 | finditer: every match lies at or after the start position and inside the text |
| `SkuScanner.FindAllIsFindIter` | ai_agent_tutorials/ai_3dpygame_r1/email_to_ERP_Agent/backend/email_processor/email_client.py:364-366 | each match is the leftmost one at or after the end of the previous one, and none follows the last |
| `SkuScanner.FindIterUnique` | ai_agent_tutorials/ai_3dpygame_r1/email_to_ERP_Agent/backend/email_processor/email_client.py:364-366 | that description determines the match list uniquely |
| `SkuScanner.Search` | ai_agent_tutorials/ai_3dpygame_r1/email_to_ERP_Agent/backend/email_processor/email_client.py:372 | search: a result is a match starting inside the window |
| `SkuScanner.SearchLeftmost` | ai_agent_tutorials/ai_3dpygame_r1/email_to_ERP_Agent/backend/email_processor/email_client.py:372-373 | search finds nothing exactly when no position matches, and otherwise the leftmost match |
| `SkuScanner.SkuMatches` | ai_agent_tutorials/ai_3dpygame_r1/email_to_ERP_Agent/backend/email_processor/email_client.py:364 | SKU matches lie inside the text with a non-empty value |
| `SkuScanner.SkuMatchesAreMatches` | ai_agent_tutorials/ai_3dpygame_r1/email_to_ERP_Agent/backend/email_processor/email_client.py:360-366 | every SKU match is "sku" in any case, separators and a maximal code run |
| `SkuScanner.MatchesOrdered` | ai_agent_tutorials/ai_3dpygame_r1/email_to_ERP_Agent/backend/email_processor/email_client.py:364-366 | matches are in text order and do not overlap |
| `SkuScanner.QtyWindowOf` | ai_agent_tutorials/ai_3dpygame_r1/email_to_ERP_Agent/backend/email_processor/email_client.py:372 | the window is the text from the SKU match's start, 100 characters long, or shorter when the text ends first |
| `SkuScanner.QuantityFor` | ai_agent_tutorials/ai_3dpygame_r1/email_to_ERP_Agent/backend/email_processor/email_client.py:371-374 | the quantity is never negative |
| `SkuScanner.QuantityRule` | ai_agent_tutorials/ai_3dpygame_r1/email_to_ERP_Agent/backend/email_processor/email_client.py:371-374 | 1 when the window holds no quantity match; otherwise the decimal value of the first match's digit run |
| `SkuScanner.Strip` | ai_agent_tutorials/ai_3dpygame_r1/email_to_ERP_Agent/backend/email_processor/email_client.py:367 | the result is no longer than the input and neither starts nor ends with whitespace |
| `SkuScanner.StripSpec` | ai_agent_tutorials/ai_3dpygame_r1/email_to_ERP_Agent/backend/email_processor/email_client.py:367 | the result is a slice of the input with only whitespace removed before and after it |
| `SkuScanner.StripOfCodeIsNoOp` | ai_agent_tutorials/ai_3dpygame_r1/email_to_ERP_Agent/backend/email_processor/email_client.py:367 | a captured code has no whitespace, so the strip is a no-op |
| `SkuScanner.SkuFromMatch` | ai_agent_tutorials/ai_3dpygame_r1/email_to_ERP_Agent/backend/email_processor/email_client.py:367-382 | the record for one match: its code is no longer than the capture, its quantity is never negative, and it has no source, no validation and no ERP entry; `ExtractedSkuShape` gives the code and quantity exactly |
| `SkuScanner.ExtractedSkus` | ai_agent_tutorials/ai_3dpygame_r1/email_to_ERP_Agent/backend/email_processor/email_client.py:363-386 | one record per SKU match |
| `SkuScanner.ExtractedSkuShape` | ai_agent_tutorials/ai_3dpygame_r1/email_to_ERP_Agent/backend/email_processor/email_client.py:366-384 | record k carries match k's code (non-empty, letters, digits and '-'), the rule's quantity, and the default source, flag and entry |
| `SkuScanner.ExampleLowerCaseKeyword` | ai_agent_tutorials/ai_3dpygame_r1/email_to_ERP_Agent/backend/email_processor/email_client.py:360-364 | a lower-case "sku:" followed by a code matches |
| `Chars.ToLower` | ai_agent_tutorials/ai_3dpygame_r1/email_to_ERP_Agent/backend/email_processor/email_client.py:135-137 | an upper-case ASCII letter becomes its lower-case letter; every other character is unchanged |
| `Decimal.NatToString` | ai_agent_tutorials/ai_3dpygame_r1/email_to_ERP_Agent/backend/email_sender/notification.py:103 | the rendering is a non-empty digit string with no leading zero |
| `Decimal.IntToString` | ai_agent_tutorials/ai_3dpygame_r1/email_to_ERP_Agent/backend/email_sender/notification.py:103 | the rendering is digits with a leading '-' exactly for a negative number |
| `Decimal.NatToStringRoundTrip` | ai_agent_tutorials/ai_3dpygame_r1/email_to_ERP_Agent/backend/email_processor/email_client.py:374 | reading the decimal digits of a natural number gives it back |
| `Decimal.IntToStringRoundTrip` | ai_agent_tutorials/ai_3dpygame_r1/email_to_ERP_Agent/backend/email_sender/notification.py:103 | the decimal rendering of any integer, sign included, reads back as the integer |
| `EmailProcessor.ExtractSkusFromText` | ai_agent_tutorials/ai_3dpygame_r1/email_to_ERP_Agent/backend/email_processor/email_client.py:346-386 | the loop returns exactly one record per match, in match order |
| `EmailProcessor.ExtractSkus` | ai_agent_tutorials/ai_3dpygame_r1/email_to_ERP_Agent/backend/email_processor/email_client.py:324-344 | only the body is scanned |
| `EmailProcessor.MarkedIds` | ai_agent_tutorials/ai_3dpygame_r1/email_to_ERP_Agent/backend/email_processor/email_client.py:316-318 | never more ids than emails, and none at all exactly when no email yielded SKUs; `MarkedIdsSpec` gives the exact rule |
| `EmailProcessor.MarkedIdsSpec` | ai_agent_tutorials/ai_3dpygame_r1/email_to_ERP_Agent/backend/email_processor/email_client.py:316-318 | an id is marked read exactly when its email yielded SKUs |
| `EmailProcessor.ProcessEmails` | ai_agent_tutorials/ai_3dpygame_r1/email_to_ERP_Agent/backend/email_processor/email_client.py:292-322 | one (email, skus) pair per fetched message in fetch order; processed is set and the id marked read exactly when skus is non-empty |
| `Inventory.InventoryRepository.constructor` | ai_agent_tutorials/ai_3dpygame_r1/email_to_ERP_Agent/backend/inventory_validator/validator.py:75-83 | a new repository is empty |
| `Inventory.InventoryRepository.GetBySku` | ai_agent_tutorials/ai_3dpygame_r1/email_to_ERP_Agent/backend/inventory_validator/validator.py:85-100 | None exactly for an absent code, otherwise the stored item |
| `Inventory.InventoryRepository.GetAll` | ai_agent_tutorials/ai_3dpygame_r1/email_to_ERP_Agent/backend/inventory_validator/validator.py:102-114 | the stored items in insertion order, each under its own code |
| `Inventory.InventoryRepository.GetAllExactlyStored` | ai_agent_tutorials/ai_3dpygame_r1/email_to_ERP_Agent/backend/inventory_validator/validator.py:112-114 | get_all lists every stored item and nothing else, one per code |
| `Inventory.InventoryRepository.UpdateQuantity` | ai_agent_tutorials/ai_3dpygame_r1/email_to_ERP_Agent/backend/inventory_validator/validator.py:116-135 | True exactly for a present code; only that item's quantity changes; an absent code changes nothing |
| `Inventory.InventoryRepository.AddMockData` | ai_agent_tutorials/ai_3dpygame_r1/email_to_ERP_Agent/backend/inventory_validator/validator.py:137-145 | the store becomes the fold of the list into the old store, keys in first-insertion order |
| `Inventory.StoredSpec` | ai_agent_tutorials/ai_3dpygame_r1/email_to_ERP_Agent/backend/inventory_validator/validator.py:144-145 | each code maps to the last list item with that code; other existing codes keep their items |
| `Inventory.Kept` | ai_agent_tutorials/ai_3dpygame_r1/email_to_ERP_Agent/backend/inventory_validator/validator.py:35-43 | the served SKUs: no more than the input, each taken from it and in stock |
| `Inventory.Accepted` | ai_agent_tutorials/ai_3dpygame_r1/email_to_ERP_Agent/backend/inventory_validator/validator.py:35-43 | the valid list: no more than the input, each in stock and flagged; `PartitionSpec` ties it to the input |
| `Inventory.Rejected` | ai_agent_tutorials/ai_3dpygame_r1/email_to_ERP_Agent/backend/inventory_validator/validator.py:35-47 | the invalid list: no more than the input, each taken from it and not served |
| `Inventory.PartitionSpec` | ai_agent_tutorials/ai_3dpygame_r1/email_to_ERP_Agent/backend/inventory_validator/validator.py:32-49 | the served and the rejected SKUs together are the input as a multiset; the valid list is the served ones, in order, flagged |
| `Inventory.PartitionMultiset` | ai_agent_tutorials/ai_3dpygame_r1/email_to_ERP_Agent/backend/inventory_validator/validator.py:35-47 | every input SKU lands in exactly one of the two lists |
| `Inventory.AcceptedIsKeptFlagged` | ai_agent_tutorials/ai_3dpygame_r1/email_to_ERP_Agent/backend/inventory_validator/validator.py:41-43 | the valid list is the served SKUs in input order with validated set |
| `Inventory.ClassificationSpec` | ai_agent_tutorials/ai_3dpygame_r1/email_to_ERP_Agent/backend/inventory_validator/validator.py:37-47 | a valid SKU is stored with enough stock and flagged; an invalid one has an unknown code or too little stock and is unchanged |
| `Inventory.InventoryValidator.constructor` | ai_agent_tutorials/ai_3dpygame_r1/email_to_ERP_Agent/backend/inventory_validator/validator.py:13-20 | the validator keeps the repository it was given |
| `Inventory.InventoryValidator.ValidateSkus` | ai_agent_tutorials/ai_3dpygame_r1/email_to_ERP_Agent/backend/inventory_validator/validator.py:22-49 | the valid and invalid lists are the partition of the input; the repository is not modified |
| `Inventory.InventoryValidator.GetInventoryItems` | ai_agent_tutorials/ai_3dpygame_r1/email_to_ERP_Agent/backend/inventory_validator/validator.py:51-68 | the keys are exactly the requested codes present in the repository, each mapped to the stored item |
| `MockErp.EntryRecord` | ai_agent_tutorials/ai_3dpygame_r1/email_to_ERP_Agent/backend/erp_integration/erp_client.py:303-311 | the entry has exactly its seven keys, its own id, status pending and the fixed timestamps |
| `MockErp.EntryAgreesWithSkuDict` | ai_agent_tutorials/ai_3dpygame_r1/email_to_ERP_Agent/backend/erp_integration/erp_client.py:303-311 | the entry's code, quantity and source email are those of the SKU |
| `MockErp.MockErpClient.constructor` | ai_agent_tutorials/ai_3dpygame_r1/email_to_ERP_Agent/backend/erp_integration/erp_client.py:282-287 | a new client has no entries and the mock URL and key |
| `MockErp.MockErpClient.SubmitSku` | ai_agent_tutorials/ai_3dpygame_r1/email_to_ERP_Agent/backend/erp_integration/erp_client.py:289-313 | returns the given id and files the entry under it; a fresh id grows the store by one, other entries unchanged |
| `MockErp.MockErpClient.GetSkuStatus` | ai_agent_tutorials/ai_3dpygame_r1/email_to_ERP_Agent/backend/erp_integration/erp_client.py:315-328 | the stored entry for a known id, otherwise status error with message "Entry not found" |
| `MockErp.MockErpClient.StatusErrorIffUnknown` | ai_agent_tutorials/ai_3dpygame_r1/email_to_ERP_Agent/backend/erp_integration/erp_client.py:325-328 | the status is error exactly for an unknown id and pending exactly for a known one |
| `Notification.Subject` | ai_agent_tutorials/ai_3dpygame_r1/email_to_ERP_Agent/backend/email_sender/notification.py:98 | the subject line; `SendNotice` sends it with the notice's prefix |
| `Notification.PlainBody` | ai_agent_tutorials/ai_3dpygame_r1/email_to_ERP_Agent/backend/email_sender/notification.py:100-105 | the plain body; `NoticeListsTheSkus` reads it back as exactly the SKU list |
| `Notification.HtmlBody` | ai_agent_tutorials/ai_3dpygame_r1/email_to_ERP_Agent/backend/email_sender/notification.py:107-141 | the HTML body; `NoticeListsTheSkus` reads it back as exactly the SKU list |
| `Notification.RowsSnoc` | ai_agent_tutorials/ai_3dpygame_r1/email_to_ERP_Agent/backend/email_sender/notification.py:102-103 | appending a SKU appends its row |
| `Notification.BuildRows` | ai_agent_tutorials/ai_3dpygame_r1/email_to_ERP_Agent/backend/email_sender/notification.py:128-134 | the row loop yields one row per SKU in order |
| `Notification.RowReadsBack` | ai_agent_tutorials/ai_3dpygame_r1/email_to_ERP_Agent/backend/email_sender/notification.py:103 | a row reads back as its SKU's code and quantity, whatever follows it |
| `Notification.RowsReadBack` | ai_agent_tutorials/ai_3dpygame_r1/email_to_ERP_Agent/backend/email_sender/notification.py:102-103 | the rows read back as the SKUs' codes and quantities, one per SKU, in order |
| `Notification.BodyReadsBack` | ai_agent_tutorials/ai_3dpygame_r1/email_to_ERP_Agent/backend/email_sender/notification.py:101-105 | header, rows and closing read back as the SKU list |
| `Notification.RowTemplatesReadable` | ai_agent_tutorials/ai_3dpygame_r1/email_to_ERP_Agent/backend/email_sender/notification.py:128-134 | both HTML row templates and the plain line can be read back |
| `Notification.NoticeListsTheSkus` | ai_agent_tutorials/ai_3dpygame_r1/email_to_ERP_Agent/backend/email_sender/notification.py:98-141 | plain and HTML bodies each list exactly the given SKUs in order |
| `Notification.ScannedCodesFit` | ai_agent_tutorials/ai_3dpygame_r1/email_to_ERP_Agent/backend/email_processor/email_client.py:360 | extracted codes contain neither ',' nor '<' |
| `Notification.MockEmailSender.constructor` | ai_agent_tutorials/ai_3dpygame_r1/email_to_ERP_Agent/backend/email_sender/notification.py:212-217 | a new sender has an empty outbox and the example SMTP settings |
| `Notification.MockEmailSender.SendEmail` | ai_agent_tutorials/ai_3dpygame_r1/email_to_ERP_Agent/backend/email_sender/notification.py:219-239 | appends exactly one record, keeps earlier ones, returns True |
| `Notification.NotificationService.constructor` | ai_agent_tutorials/ai_3dpygame_r1/email_to_ERP_Agent/backend/email_sender/notification.py:76-84 | the service keeps the sender it was given |
| `Notification.NotificationService.SendNotice` | ai_agent_tutorials/ai_3dpygame_r1/email_to_ERP_Agent/backend/email_sender/notification.py:98-143 | one message with the prefixed subject, the plain body and the HTML body, sent once; the sender's result is returned |
| `Notification.NotificationService.SendInvalidSkuNotification` | ai_agent_tutorials/ai_3dpygame_r1/email_to_ERP_Agent/backend/email_sender/notification.py:86-143 | sends the invalid-SKU notice once, as above |
| `Notification.NotificationService.SendProcessingConfirmation` | ai_agent_tutorials/ai_3dpygame_r1/email_to_ERP_Agent/backend/email_sender/notification.py:145-205 | sends the confirmation notice once, as above |

## Left out

- Regex character classes: `\s`, `\d` and IGNORECASE are ASCII here.
  - Whitespace is space, tab, newline, carriage return, form feed and vertical tab; digits are 0-9; case folding is A-Z to a-z.
  - Python's Unicode matching also accepts other whitespace and digits, and the non-ASCII case variants that fold onto `[A-Z]` (for example the Kelvin sign and the long s).
- `SkuScanner.Strip`: strips ASCII whitespace only, for the same reason. On captured codes it is a no-op either way.
- Base64 decoding in `_get_email_body` is the caller-supplied function `decode`. Its decode errors are not modelled.
- Date parsing in `parse_email` (`strptime`, and `datetime.now()` as the fallback) is the caller-supplied function `parseDate`. The date is kept as the string `to_dict` writes, so `isoformat` is not modelled.
- The `GmailClient` network and OAuth code (`authenticate`, `fetch_emails`, `get_attachment_content`, `mark_as_read`) is outside the model.
  - `ProcessEmails` takes the fetched messages as input.
  - It returns the ids it would mark read instead of calling the API.
  - `query` and `max_results` only reach `fetch_emails`, so they are not parameters.
- The `'body' in part` guards: a Gmail part always carries a `body` object, so `Part.body` is always present and those guards are always true. KeyError paths on malformed messages are not modelled.
- `uuid.uuid4()` in `MockERPClient.submit_sku` is the `entryId` parameter.
  - The model does not assume the id is fresh: filing under an existing id replaces that entry, as the dictionary assignment does.
  - The growth-by-one property is stated for a fresh id.
- Aliasing of in-place updates is not modelled. The records are values and updates are functional, so:
  - `validate_skus` returns flagged copies;
  - `update_quantity` replaces the stored item;
  - `get_sku_status` returns the stored record's value.
  Effects visible through other references to the same Python objects are not captured.
- The `db_session` branches of `InventoryRepository` are stubs that return None, and they are not modelled. Only the in-memory branch is.
- `InventoryItem.price` is a float and is kept as an uninterpreted real.
- `NotificationService` is modelled over `MockEmailSender` only. The SMTP `EmailSender.send_email` (network I/O) is not modelled, so neither are its exception path and its `False` result.
- The SAP, NetSuite and custom ERP clients (HTTP calls) are not modelled. `ERPClient`'s constructor is modelled only through the mock's URL and key.
- The FastAPI routers, authentication, ORM models, database setup and start-up scripts are not modelled.
- The loggers are not modelled.
