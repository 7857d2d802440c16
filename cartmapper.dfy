/**
 * CartMapper: the light projection of a cart payload, an order-preserving
 * filter-map from `(line key, line)` entries to `{key, product_id,
 * quantity}` records. Cart values hold no PHP objects here, so what is
 * left of CartMapper::normalizeItem is its `array` return type: a line
 * that is not an array raises a TypeError, which ends the whole mapping.
 * Line totals (floats) and the product summary are not part of this model.
 */
module CartMapper {
  import opened Php
  import CartStorage

  datatype LightLine = LightLine(key: Value, productId: int, quantity: int)

  /**
   * CartMapper::mapItem on an array item. light never passes it anything
   * else (normalizeItem throws first, see `Light`); such an item maps to
   * nothing here.
   */
  function MapItem(item: Value, catalog: CartStorage.Catalog): Option<LightLine> {
    if !item.Arr? then None
    else if !IsSet(Field(item, "product_id")) then None
    else
      var productId := ToInt(Field(item, "product_id").value);
      if productId <= 0 then None
      else if !catalog(productId) then None
      else
        var quantity := if IsSet(Field(item, "quantity")) then ToInt(Field(item, "quantity").value) else 1;
        Some(LightLine(Coalesce(Field(item, "key"), Str("")), productId, quantity))
  }

  /** `$item['key'] = $key` for an array item; other items are passed on as they are. */
  function WithKey(item: Value, key: string): Value {
    if item.Arr? then Arr(Put(item.entries, "key", Str(key))) else item
  }

  /** What CartMapper::light emits for the entry `(key, item)`. */
  function MapEntry(entry: (string, Value), catalog: CartStorage.Catalog): Option<LightLine> {
    MapItem(WithKey(entry.1, entry.0), catalog)
  }

  /** The specification of CartMapper::light. */
  function LightOf(items: Entries, catalog: CartStorage.Catalog): seq<LightLine>
    decreases |items|
  {
    if items == [] then []
    else
      var m := MapEntry(items[|items| - 1], catalog);
      LightOf(items[..|items| - 1], catalog) + (if m.Some? then [m.value] else [])
  }

  /** Every line is an array, as normalizeItem's `array` return type demands. */
  predicate Normalizable(items: Entries) {
    forall i :: 0 <= i < |items| ==> items[i].1.Arr?
  }

  /** The outcome of CartMapper::light: the light lines, or `None` for the TypeError. */
  function LightResult(items: Entries, catalog: CartStorage.Catalog): Option<seq<LightLine>> {
    if Normalizable(items) then Some(LightOf(items, catalog)) else None
  }

  /**
   * CartMapper::light: the foreach that appends each mapped item to `$out`,
   * ended by the TypeError at the first line that is not an array.
   */
  method Light(items: Entries, catalog: CartStorage.Catalog) returns (out: Option<seq<LightLine>>)
    ensures out == LightResult(items, catalog)
  {
    var lines := [];
    var i := 0;
    while i < |items|
      invariant 0 <= i <= |items|
      invariant lines == LightOf(items[..i], catalog)
      invariant Normalizable(items[..i])
    {
      LightStep(items, i, catalog);
      NormalizableStep(items, i);
      if !items[i].1.Arr? {
        return None;
      }
      var mapped := MapEntry(items[i], catalog);
      lines := lines + (if mapped.Some? then [mapped.value] else []);
      i := i + 1;
    }
    assert items[..i] == items;
    return Some(lines);
  }

  lemma LightStep(items: Entries, i: nat, catalog: CartStorage.Catalog)
    requires i < |items|
    ensures var m := MapEntry(items[i], catalog);
      LightOf(items[..i + 1], catalog) == LightOf(items[..i], catalog) + (if m.Some? then [m.value] else [])
  {
    assert items[..i + 1][..i] == items[..i];
  }

  lemma NormalizableStep(items: Entries, i: nat)
    requires i < |items|
    ensures Normalizable(items[..i + 1]) <==> Normalizable(items[..i]) && items[i].1.Arr?
    ensures !items[i].1.Arr? ==> !Normalizable(items)
  {
    assert items[..i + 1][i] == items[i];
  }

  // ---------------------------------------------------------------------------
  // Properties

  /**
   * mapItem keeps exactly the array items with a set, positive product id
   * whose product resolves; the light line takes that id, the item's `key`
   * (or ''), and its quantity, 1 when unset.
   */
  lemma MapItemRule(item: Value, catalog: CartStorage.Catalog)
    ensures MapItem(item, catalog).Some? <==>
      item.Arr? && IsSet(Field(item, "product_id"))
      && ToInt(Field(item, "product_id").value) > 0
      && catalog(ToInt(Field(item, "product_id").value))
    ensures MapItem(item, catalog).Some? ==>
      var r := MapItem(item, catalog).value;
      && r.productId == ToInt(Field(item, "product_id").value)
      && r.key == Coalesce(Field(item, "key"), Str(""))
      && r.quantity == (if IsSet(Field(item, "quantity")) then ToInt(Field(item, "quantity").value) else 1)
  {
  }

  /** A light line always carries the line key it was listed under. */
  lemma EntryKey(entry: (string, Value), catalog: CartStorage.Catalog)
    requires MapEntry(entry, catalog).Some?
    ensures MapEntry(entry, catalog).value.key == Str(entry.0)
  {
    PutFind(entry.1.entries, "key", Str(entry.0));
  }

  /** The input positions whose items light maps, in increasing order. */
  function Sources(items: Entries, catalog: CartStorage.Catalog): seq<nat>
    decreases |items|
  {
    if items == [] then []
    else
      var n := |items| - 1;
      Sources(items[..n], catalog) + (if MapEntry(items[n], catalog).Some? then [n] else [])
  }

  /**
   * light keeps the input order: its output is the mapped items at a
   * strictly increasing sequence of input positions, every position whose
   * item maps appears, each output line carries the key of its input
   * entry, and so the output is never longer than the input.
   */
  lemma LightSources(items: Entries, catalog: CartStorage.Catalog)
    ensures var idx := Sources(items, catalog);
      && |idx| == |LightOf(items, catalog)| <= |items|
      && Increasing(idx)
      && (forall j :: 0 <= j < |idx| ==> SourceOf(items, catalog, idx, j))
      && (forall i :: 0 <= i < |items| && MapEntry(items[i], catalog).Some? ==> i in idx)
  {
    SourcesShape(items, catalog);
    SourcesMap(items, catalog);
    forall i | 0 <= i < |items| && MapEntry(items[i], catalog).Some? ensures i in Sources(items, catalog) {
      SourceListed(items, catalog, i);
    }
  }

  predicate Increasing(idx: seq<nat>) {
    forall a, b :: 0 <= a < b < |idx| ==> idx[a] < idx[b]
  }

  lemma {:induction false} SourcesShape(items: Entries, catalog: CartStorage.Catalog)
    ensures |Sources(items, catalog)| == |LightOf(items, catalog)| <= |items|
    ensures forall j :: 0 <= j < |Sources(items, catalog)| ==> Sources(items, catalog)[j] < |items|
    ensures Increasing(Sources(items, catalog))
    decreases |items|
  {
    if items != [] {
      var n := |items| - 1;
      SourcesShape(items[..n], catalog);
      var pre := Sources(items[..n], catalog);
      if MapEntry(items[n], catalog).Some? {
        assert Sources(items, catalog) == pre + [n];
        AppendIncreasing(pre, n);
      }
    }
  }

  lemma AppendIncreasing(pre: seq<nat>, n: nat)
    requires Increasing(pre) && forall j :: 0 <= j < |pre| ==> pre[j] < n
    ensures Increasing(pre + [n])
  {
  }

  lemma {:induction false} SourcesMap(items: Entries, catalog: CartStorage.Catalog)
    ensures forall j :: 0 <= j < |Sources(items, catalog)| ==> SourceOf(items, catalog, Sources(items, catalog), j)
    decreases |items|
  {
    if items != [] {
      var n := |items| - 1;
      var pre := Sources(items[..n], catalog);
      var idx := Sources(items, catalog);
      SourcesMap(items[..n], catalog);
      SourcesShape(items[..n], catalog);
      forall j | 0 <= j < |idx| ensures SourceOf(items, catalog, idx, j) {
        if j < |pre| {
          SourceOfInit(items, catalog, pre, idx, j);
        } else {
          SourceOfLast(items, catalog);
        }
      }
    }
  }

  /** When the last entry maps, it is the last output line, from the last position. */
  lemma SourceOfLast(items: Entries, catalog: CartStorage.Catalog)
    requires items != [] && MapEntry(items[|items| - 1], catalog).Some?
    ensures var idx := Sources(items, catalog);
      |idx| > 0 && SourceOf(items, catalog, idx, |idx| - 1)
  {
    var n := |items| - 1;
    SourcesShape(items[..n], catalog);
    EntryKey(items[n], catalog);
  }

  /** A position whose item maps is one of the sources. */
  lemma {:induction false} SourceListed(items: Entries, catalog: CartStorage.Catalog, i: nat)
    requires i < |items| && MapEntry(items[i], catalog).Some?
    ensures i in Sources(items, catalog)
    decreases |items|
  {
    var n := |items| - 1;
    var pre := Sources(items[..n], catalog);
    var tail := if MapEntry(items[n], catalog).Some? then [n] else [];
    assert Sources(items, catalog) == pre + tail;
    if i < n {
      assert items[..n][i] == items[i];
      SourceListed(items[..n], catalog, i);
    } else {
      assert i in tail;
    }
  }

  /** A source position of light on all but the last entry is one on the whole input. */
  lemma SourceOfInit(items: Entries, catalog: CartStorage.Catalog, pre: seq<nat>, idx: seq<nat>, j: nat)
    requires items != [] && j < |pre| && j < |idx| && idx[j] == pre[j]
    requires SourceOf(items[..|items| - 1], catalog, pre, j)
    ensures SourceOf(items, catalog, idx, j)
  {
    var init := items[..|items| - 1];
    var m := MapEntry(items[|items| - 1], catalog);
    assert LightOf(items, catalog) == LightOf(init, catalog) + (if m.Some? then [m.value] else []);
    assert items[pre[j]] == init[pre[j]];
    assert LightOf(items, catalog)[j] == LightOf(init, catalog)[j];
  }

  /** Output line `j` of light comes from input position `idx[j]` and carries its key. */
  predicate SourceOf(items: Entries, catalog: CartStorage.Catalog, idx: seq<nat>, j: nat)
    requires j < |idx|
  {
    var L := LightOf(items, catalog);
    && idx[j] < |items| && j < |L|
    && MapEntry(items[idx[j]], catalog) == Some(L[j])
    && L[j].key == Str(items[idx[j]].0)
  }

  /** Every light line has a positive product id that resolves. */
  lemma {:induction false} LightProducts(items: Entries, catalog: CartStorage.Catalog)
    ensures forall j :: 0 <= j < |LightOf(items, catalog)| ==>
      LightOf(items, catalog)[j].productId > 0 && catalog(LightOf(items, catalog)[j].productId)
    decreases |items|
  {
    if items != [] {
      LightProducts(items[..|items| - 1], catalog);
    }
  }

  /** Items without a product id, with one that is not positive, or whose product is gone, are dropped. */
  lemma DroppedItems(entry: (string, Value), catalog: CartStorage.Catalog)
    requires entry.1.Arr?
    requires var pid := Lookup(entry.1.entries, "product_id");
      !IsSet(pid) || ToInt(pid.value) <= 0 || !catalog(ToInt(pid.value))
    ensures MapEntry(entry, catalog).None?
  {
    assert entry.0 != "product_id" ==> "key" != "product_id";
    var e := WithKey(entry.1, entry.0);
    PutOther(entry.1.entries, "key", Str(entry.0), "product_id");
  }

  /** An empty cart projects to an empty list. */
  lemma LightEmpty(catalog: CartStorage.Catalog)
    ensures LightOf([], catalog) == []
  {
  }
}
