/**
 * The SKU records of the backend: an SKU line extracted from an order email
 * and an inventory item, with their dictionary serialisations.
 */
module SkuModel {
  import opened Wrappers
  import opened Values

  /** One SKU request. The constructor's optional arguments default as in the source. */
  datatype SkuInfo = SkuInfo(
    skuCode: string,
    quantity: int,
    sourceEmailId: Option<string> := None,
    validated: bool := false,
    erpEntryId: Option<string> := None)

  /** One stock item; `price` is a Python float and is only ever copied. */
  datatype InventoryItem = InventoryItem(
    skuCode: string,
    name: string,
    description: string,
    quantity: int,
    price: real,
    category: string)

  const SkuKeys: set<string> := {"sku_code", "quantity", "source_email_id", "validated", "erp_entry_id"}
  const ItemKeys: set<string> := {"sku_code", "name", "description", "quantity", "price", "category"}

  /** Omitted optional arguments take the defaults None, False, None; the given ones are stored. */
  lemma SkuInfoDefaults(code: string, quantity: int)
    ensures SkuInfo(code, quantity) == SkuInfo(code, quantity, None, false, None)
    ensures SkuInfo(code, quantity).skuCode == code && SkuInfo(code, quantity).quantity == quantity
  {
  }

  /** `SKUInfo.to_dict`: exactly five keys. */
  function SkuToDict(s: SkuInfo): (d: Dict)
    ensures d.Keys == SkuKeys
  {
    map[
      "sku_code" := VStr(s.skuCode),
      "quantity" := VInt(s.quantity),
      "source_email_id" := OptStr(s.sourceEmailId),
      "validated" := VBool(s.validated),
      "erp_entry_id" := OptStr(s.erpEntryId)]
  }

  /** Reads an `SKUInfo` back from its dictionary form; `None` if a key is missing or ill-typed. */
  function SkuFromDict(d: Dict): Option<SkuInfo>
  {
    if SkuKeys <= d.Keys
       && d["sku_code"].VStr? && d["quantity"].VInt? && d["validated"].VBool?
       && AsOptStr(d["source_email_id"]).Some? && AsOptStr(d["erp_entry_id"]).Some?
    then Some(SkuInfo(d["sku_code"].s, d["quantity"].i, AsOptStr(d["source_email_id"]).value,
                      d["validated"].b, AsOptStr(d["erp_entry_id"]).value))
    else None
  }

  /** Every field of an `SKUInfo` is recoverable from its dictionary, under its own name. */
  lemma SkuDictRoundTrip(s: SkuInfo)
    ensures SkuFromDict(SkuToDict(s)) == Some(s)
  {
    OptStrRoundTrip(s.sourceEmailId);
    OptStrRoundTrip(s.erpEntryId);
  }

  /** `InventoryItem.to_dict`: exactly six keys. */
  function ItemToDict(item: InventoryItem): (d: Dict)
    ensures d.Keys == ItemKeys
  {
    map[
      "sku_code" := VStr(item.skuCode),
      "name" := VStr(item.name),
      "description" := VStr(item.description),
      "quantity" := VInt(item.quantity),
      "price" := VFloat(item.price),
      "category" := VStr(item.category)]
  }

  function ItemFromDict(d: Dict): Option<InventoryItem>
  {
    if ItemKeys <= d.Keys
       && d["sku_code"].VStr? && d["name"].VStr? && d["description"].VStr?
       && d["quantity"].VInt? && d["price"].VFloat? && d["category"].VStr?
    then Some(InventoryItem(d["sku_code"].s, d["name"].s, d["description"].s,
                            d["quantity"].i, d["price"].f, d["category"].s))
    else None
  }

  /** Every field of an `InventoryItem` is recoverable from its dictionary, under its own name. */
  lemma ItemDictRoundTrip(item: InventoryItem)
    ensures ItemFromDict(ItemToDict(item)) == Some(item)
  {
  }
}
