/**
 * `MockERPClient`: an in-memory ERP that files each submitted SKU as a
 * pending entry and reports an entry's status by id. The random entry id
 * (`uuid4`) is supplied by the caller.
 */
module MockErp {
  import opened Wrappers
  import opened Values
  import opened SkuModel

  const MockApiUrl: string := "mock://erp-api"
  const MockApiKey: string := "mock-api-key"
  /** The fixed timestamp written into every entry. */
  const FixedTimestamp: string := "2023-01-01T00:00:00Z"
  const EntryKeys: set<string> :=
    {"id", "sku_code", "quantity", "source_email_id", "status", "created_at", "updated_at"}

  /** The entry `submit_sku` files for `sku` under `id`: pending, with the fixed timestamps. */
  function EntryRecord(id: string, sku: SkuInfo): (d: Dict)
    ensures d.Keys == EntryKeys
    ensures d["id"] == VStr(id) && d["status"] == VStr("pending")
    ensures d["created_at"] == d["updated_at"] == VStr(FixedTimestamp)
  {
    map[
      "id" := VStr(id),
      "sku_code" := VStr(sku.skuCode),
      "quantity" := VInt(sku.quantity),
      "source_email_id" := OptStr(sku.sourceEmailId),
      "status" := VStr("pending"),
      "created_at" := VStr(FixedTimestamp),
      "updated_at" := VStr(FixedTimestamp)]
  }

  /** The answer for an unknown id. */
  const NotFound: Dict := map["status" := VStr("error"), "message" := VStr("Entry not found")]

  /** An entry carries the SKU's code, quantity and source email exactly as `SKUInfo.to_dict` writes them. */
  lemma EntryAgreesWithSkuDict(id: string, sku: SkuInfo)
    ensures forall k :: k in {"sku_code", "quantity", "source_email_id"} ==> EntryRecord(id, sku)[k] == SkuToDict(sku)[k]
    ensures SkuFromDict(EntryRecord(id, sku)[
              "validated" := VBool(sku.validated)][
              "erp_entry_id" := OptStr(sku.erpEntryId)]) == Some(sku)
  {
    var d := EntryRecord(id, sku)["validated" := VBool(sku.validated)]["erp_entry_id" := OptStr(sku.erpEntryId)];
    assert SkuKeys <= d.Keys;
    OptStrRoundTrip(sku.sourceEmailId);
    OptStrRoundTrip(sku.erpEntryId);
  }

  class MockErpClient {
    const apiUrl: string
    const apiKey: string
    var entries: map<string, Dict>

    /** Every stored entry is filed under its own id and is still pending. */
    ghost predicate Valid()
      reads this
    {
      forall id :: id in entries ==>
        && "id" in entries[id] && entries[id]["id"] == VStr(id)
        && "status" in entries[id] && entries[id]["status"] == VStr("pending")
    }

    constructor ()
      ensures Valid() && entries == map[]
      ensures apiUrl == MockApiUrl && apiKey == MockApiKey
    {
      apiUrl := MockApiUrl;
      apiKey := MockApiKey;
      entries := map[];
    }

    /**
     * `submit_sku` with `entryId` in place of the generated uuid: files the
     * entry under that id (replacing one already there) and returns the id.
     */
    method SubmitSku(sku: SkuInfo, entryId: string) returns (id: string)
      requires Valid()
      modifies this
      ensures Valid()
      ensures id == entryId
      ensures entries == old(entries)[id := EntryRecord(id, sku)]
      ensures entryId !in old(entries) ==> |entries| == |old(entries)| + 1
    {
      id := entryId;
      entries := entries[id := EntryRecord(id, sku)];
    }

    /** `get_sku_status`: the stored entry itself, or the not-found answer. */
    function GetSkuStatus(entryId: string): (r: Dict)
      reads this
      ensures entryId in entries ==> r == entries[entryId]
      ensures entryId !in entries ==> r == NotFound
    {
      if entryId in entries then entries[entryId] else NotFound
    }

    /** A status lookup reports "error" exactly for an id that was never filed. */
    lemma StatusErrorIffUnknown(entryId: string)
      requires Valid()
      ensures "status" in GetSkuStatus(entryId)
      ensures GetSkuStatus(entryId)["status"] == VStr("error") <==> entryId !in entries
      ensures entryId in entries <==> GetSkuStatus(entryId)["status"] == VStr("pending")
    {
    }
  }
}
