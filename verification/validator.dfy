/**
 * The inventory side of the pipeline: a dictionary-backed repository of stock
 * items (its in-memory branch) and the validator that sorts SKU requests into
 * those the stock can serve and those it cannot.
 */
module Inventory {
  import opened Wrappers
  import opened SkuModel

  // ---------------------------------------------------------------- the repository

  /** The stock after storing `list` item by item into `m`: a later item with the same code replaces an earlier one. */
  function Stored(m: map<string, InventoryItem>, list: seq<InventoryItem>): map<string, InventoryItem>
  {
    if list == [] then m
    else Stored(m, list[..|list| - 1])[list[|list| - 1].skuCode := list[|list| - 1]]
  }

  /** The dictionary's key order after those stores: a code joins the end when it is first stored. */
  function AppendNew(keys: seq<string>, list: seq<InventoryItem>): seq<string>
  {
    if list == [] then keys
    else
      var prefix := AppendNew(keys, list[..|list| - 1]);
      if list[|list| - 1].skuCode in prefix then prefix else prefix + [list[|list| - 1].skuCode]
  }

  predicate Distinct(s: seq<string>)
  {
    forall i, j :: 0 <= i < j < |s| ==> s[i] != s[j]
  }

  /** The values of `items` in the order of `keys`. */
  function ValuesIn(keys: seq<string>, items: map<string, InventoryItem>): (r: seq<InventoryItem>)
    requires forall k :: k in keys ==> k in items
    ensures |r| == |keys|
    ensures forall i :: 0 <= i < |keys| ==> r[i] == items[keys[i]]
  {
    if keys == [] then [] else [items[keys[0]]] + ValuesIn(keys[1..], items)
  }

  lemma {:induction false} DistinctCard(s: seq<string>)
    requires Distinct(s)
    ensures |set k | k in s| == |s|
  {
    if s != [] {
      DistinctCard(s[1..]);
      assert (set k | k in s) == (set k | k in s[1..]) + {s[0]};
      assert s[0] !in s[1..];
    }
  }

  /**
   * The in-memory `InventoryRepository`. `items` is its `_mock_inventory`
   * dictionary; `keys` records that dictionary's insertion order, which is
   * the order `get_all` lists the values in.
   */
  class InventoryRepository {
    var keys: seq<string>
    var items: map<string, InventoryItem>

    /** Keys listed once each, exactly the stored codes, each item stored under its own code. */
    ghost predicate Valid()
      reads this
    {
      && Distinct(keys)
      && (forall k :: k in keys <==> k in items)
      && (forall k :: k in items ==> items[k].skuCode == k)
    }

    constructor ()
      ensures Valid() && keys == [] && items == map[]
    {
      keys := [];
      items := map[];
    }

    /** `get_by_sku`: the stored item, or None exactly when the code is absent. */
    function GetBySku(code: string): (r: Option<InventoryItem>)
      reads this
      ensures r.None? <==> code !in items
      ensures r.Some? ==> r.value == items[code]
    {
      if code in items then Some(items[code]) else None
    }

    /** `get_all`: the stored items in insertion order. */
    function GetAll(): (r: seq<InventoryItem>)
      reads this
      requires Valid()
      ensures |r| == |keys|
      ensures forall i :: 0 <= i < |r| ==> r[i] == items[keys[i]] && r[i].skuCode == keys[i]
    {
      ValuesIn(keys, items)
    }

    /** `get_all` lists every stored item once and nothing else. */
    lemma GetAllExactlyStored()
      requires Valid()
      ensures |GetAll()| == |items|
      ensures forall item :: item in GetAll() <==> exists code :: code in items && items[code] == item
    {
      DistinctCard(keys);
      assert (set k | k in keys) == items.Keys;
      var all := GetAll();
      forall item
        ensures item in all <==> exists code :: code in items && items[code] == item
      {
        if item in all {
          var i :| 0 <= i < |all| && all[i] == item;
          assert keys[i] in items && items[keys[i]] == item;
        }
        if exists code :: code in items && items[code] == item {
          var code :| code in items && items[code] == item;
          var i :| 0 <= i < |keys| && keys[i] == code;
          assert all[i] == item;
        }
      }
    }

    /** `update_quantity`: only the quantity of a present code changes; an absent code changes nothing. */
    method UpdateQuantity(code: string, quantity: int) returns (ok: bool)
      requires Valid()
      modifies this
      ensures Valid()
      ensures ok == (code in old(items))
      ensures keys == old(keys)
      ensures ok ==> items == old(items)[code := old(items)[code].(quantity := quantity)]
      ensures !ok ==> items == old(items)
    {
      if code in items {
        items := items[code := items[code].(quantity := quantity)];
        return true;
      }
      return false;
    }

    /** `add_mock_data`: stores the items one after another. */
    method AddMockData(list: seq<InventoryItem>)
      requires Valid()
      modifies this
      ensures Valid()
      ensures items == Stored(old(items), list)
      ensures keys == AppendNew(old(keys), list)
    {
      for i := 0 to |list|
        invariant Valid()
        invariant items == Stored(old(items), list[..i])
        invariant keys == AppendNew(old(keys), list[..i])
      {
        var item := list[i];
        assert list[..i + 1][..i] == list[..i];
        if item.skuCode !in items {
          keys := keys + [item.skuCode];
        }
        items := items[item.skuCode := item];
      }
      assert list[..|list|] == list;
    }
  }

  /**
   * After storing `list`, a code is present exactly when it was before or
   * some item carries it; it maps to the last item with that code, and a code
   * no item carries keeps its old item.
   */
  lemma {:induction false} StoredSpec(m: map<string, InventoryItem>, list: seq<InventoryItem>, code: string)
    ensures code in Stored(m, list) <==> code in m || exists i :: 0 <= i < |list| && list[i].skuCode == code
    ensures forall i :: 0 <= i < |list| && list[i].skuCode == code &&
                        (forall j :: i < j < |list| ==> list[j].skuCode != code) ==>
                          code in Stored(m, list) && Stored(m, list)[code] == list[i]
    ensures (forall i :: 0 <= i < |list| ==> list[i].skuCode != code) && code in m ==>
              Stored(m, list)[code] == m[code]
  {
    if list != [] {
      var n := |list| - 1;
      var prefix := list[..n];
      StoredSpec(m, prefix, code);
      if list[n].skuCode != code {
        forall i | 0 <= i < |list| && list[i].skuCode == code &&
                   (forall j :: i < j < |list| ==> list[j].skuCode != code)
          ensures code in Stored(m, list) && Stored(m, list)[code] == list[i]
        {
          assert prefix[i] == list[i];
          assert forall j :: i < j < |prefix| ==> prefix[j] == list[j];
        }
        if exists i :: 0 <= i < |list| && list[i].skuCode == code {
          var i :| 0 <= i < |list| && list[i].skuCode == code;
          assert prefix[i] == list[i];
        }
      }
    }
  }

  // ---------------------------------------------------------------- the validator

  /** The stock serves `s`: its code is stored with at least the requested quantity. */
  predicate InStock(inv: map<string, InventoryItem>, s: SkuInfo)
  {
    s.skuCode in inv && inv[s.skuCode].quantity >= s.quantity
  }

  /** The SKUs the stock serves, in input order, as they were passed in. */
  function Kept(inv: map<string, InventoryItem>, skus: seq<SkuInfo>): (r: seq<SkuInfo>)
    ensures |r| <= |skus|
    ensures forall i :: 0 <= i < |r| ==> InStock(inv, r[i]) && r[i] in skus
  {
    if skus == [] then []
    else Kept(inv, skus[..|skus| - 1]) + (if InStock(inv, skus[|skus| - 1]) then [skus[|skus| - 1]] else [])
  }

  /** The valid list: the served SKUs in input order, each flagged validated. */
  function Accepted(inv: map<string, InventoryItem>, skus: seq<SkuInfo>): (r: seq<SkuInfo>)
    ensures |r| <= |skus|
    ensures forall i :: 0 <= i < |r| ==> r[i].validated && InStock(inv, r[i])
  {
    if skus == [] then []
    else
      Accepted(inv, skus[..|skus| - 1]) +
      (if InStock(inv, skus[|skus| - 1]) then [skus[|skus| - 1].(validated := true)] else [])
  }

  /** The invalid list: the SKUs the stock does not serve, in input order and unchanged. */
  function Rejected(inv: map<string, InventoryItem>, skus: seq<SkuInfo>): (r: seq<SkuInfo>)
    ensures |r| <= |skus|
    ensures forall i :: 0 <= i < |r| ==> !InStock(inv, r[i]) && r[i] in skus
  {
    if skus == [] then []
    else Rejected(inv, skus[..|skus| - 1]) + (if InStock(inv, skus[|skus| - 1]) then [] else [skus[|skus| - 1]])
  }

  /**
   * Every input SKU lands in exactly one list: the served ones and the
   * rejected ones together are the input as a multiset; the valid list is the
   * served ones, in order, with the validated flag set.
   */
  lemma {:induction false} PartitionSpec(inv: map<string, InventoryItem>, skus: seq<SkuInfo>)
    ensures multiset(Kept(inv, skus)) + multiset(Rejected(inv, skus)) == multiset(skus)
    ensures |Accepted(inv, skus)| + |Rejected(inv, skus)| == |skus|
    ensures |Accepted(inv, skus)| == |Kept(inv, skus)|
    ensures forall i :: 0 <= i < |Kept(inv, skus)| ==> Accepted(inv, skus)[i] == Kept(inv, skus)[i].(validated := true)
  {
    PartitionMultiset(inv, skus);
    AcceptedIsKeptFlagged(inv, skus);
    assert |multiset(Kept(inv, skus))| + |multiset(Rejected(inv, skus))| == |multiset(skus)|;
  }

  lemma {:induction false} PartitionMultiset(inv: map<string, InventoryItem>, skus: seq<SkuInfo>)
    ensures multiset(Kept(inv, skus)) + multiset(Rejected(inv, skus)) == multiset(skus)
  {
    if skus != [] {
      var n := |skus| - 1;
      var prefix, last := skus[..n], skus[n];
      PartitionMultiset(inv, prefix);
      assert skus == prefix + [last];
      assert multiset(skus) == multiset(prefix) + multiset{last};
    }
  }

  lemma {:induction false} AcceptedIsKeptFlagged(inv: map<string, InventoryItem>, skus: seq<SkuInfo>)
    ensures |Accepted(inv, skus)| == |Kept(inv, skus)|
    ensures forall i :: 0 <= i < |Kept(inv, skus)| ==> Accepted(inv, skus)[i] == Kept(inv, skus)[i].(validated := true)
  {
    if skus != [] {
      AcceptedIsKeptFlagged(inv, skus[..|skus| - 1]);
    }
  }

  /**
   * The validity rule: a valid SKU has its code in stock with enough quantity
   * and is flagged; an invalid one has an unknown code or too little stock.
   */
  lemma {:induction false} ClassificationSpec(inv: map<string, InventoryItem>, skus: seq<SkuInfo>)
    ensures forall v :: v in Accepted(inv, skus) ==>
              v.validated && v.skuCode in inv && inv[v.skuCode].quantity >= v.quantity
    ensures forall r :: r in Rejected(inv, skus) ==>
              r in skus && (r.skuCode !in inv || inv[r.skuCode].quantity < r.quantity)
    ensures forall s :: s in Kept(inv, skus) ==> s in skus && InStock(inv, s)
  {
    if skus != [] {
      var n := |skus| - 1;
      ClassificationSpec(inv, skus[..n]);
      assert skus == skus[..n] + [skus[n]];
    }
  }

  /** The `InventoryValidator`, over the repository it was constructed with. */
  class InventoryValidator {
    const repository: InventoryRepository

    constructor (repository: InventoryRepository)
      ensures this.repository == repository
    {
      this.repository := repository;
    }

    /**
     * `validate_skus`: the served SKUs, flagged, and the others, each list in
     * input order. The repository is not changed.
     */
    method ValidateSkus(skus: seq<SkuInfo>) returns (valid: seq<SkuInfo>, invalid: seq<SkuInfo>)
      ensures valid == Accepted(repository.items, skus)
      ensures invalid == Rejected(repository.items, skus)
    {
      valid, invalid := [], [];
      for i := 0 to |skus|
        invariant valid == Accepted(repository.items, skus[..i])
        invariant invalid == Rejected(repository.items, skus[..i])
      {
        var sku := skus[i];
        assert skus[..i + 1][..i] == skus[..i];
        var item := repository.GetBySku(sku.skuCode);
        if item.Some? {
          if item.value.quantity >= sku.quantity {
            valid := valid + [sku.(validated := true)];
          } else {
            invalid := invalid + [sku];
          }
        } else {
          invalid := invalid + [sku];
        }
      }
      assert skus[..|skus|] == skus;
    }

    /** `get_inventory_items`: the stored item for each requested code the repository holds, and no other key. */
    method GetInventoryItems(skus: seq<SkuInfo>) returns (found: map<string, InventoryItem>)
      ensures found.Keys == set s | s in skus && s.skuCode in repository.items :: s.skuCode
      ensures forall code :: code in found ==> found[code] == repository.items[code]
    {
      found := map[];
      for i := 0 to |skus|
        invariant found.Keys == set s | s in skus[..i] && s.skuCode in repository.items :: s.skuCode
        invariant forall code :: code in found ==> found[code] == repository.items[code]
      {
        var sku := skus[i];
        assert skus[..i + 1] == skus[..i] + [sku];
        var item := repository.GetBySku(sku.skuCode);
        if item.Some? {
          found := found[sku.skuCode := item.value];
        }
      }
      assert skus[..|skus|] == skus;
    }
  }
}
