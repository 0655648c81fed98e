/**
  The parts of a maintenance template (internal/store/planned_parts.go): checked
  and merged when written, read leniently. Quantities are floating-point, and `add`
  is whatever addition the machine has.
 */
module Parts {
  import opened Wrappers
  import opened Text
  import opened Floats

  const MAX_QTY: real := 100_000.0
  const MAX_SKU := 64

  /** An item of the list: its code, empty when there is no text under `sku`, and
      its quantity, if what is under `qty` reads as a number. */
  datatype Item = Item(sku: string, qty: Option<Float>)

  datatype Part = Part(sku: string, qty: Float)

  /** The value under `parts`. */
  datatype Value = Null | List(items: seq<Item>) | NotAList

  function Key(sku: string): string {
    Upper(Trim(sku))
  }

  /** What NormalizeTemplateParts refuses of a quantity. */
  predicate Refused(q: Float) {
    q.AtMost(0.0) || q.Above(MAX_QTY)
  }

  /** What NormalizeTemplateParts demands of an item. */
  predicate ItemOk(item: Item) {
    0 < |Trim(item.sku)| <= MAX_SKU && item.qty.Some? && !Refused(item.qty.value)
  }

  ghost predicate AllOk(items: seq<Item>) {
    forall i :: 0 <= i < |items| ==> ItemOk(items[i])
  }

  /** The item asks for something under the code. */
  predicate Under(item: Item, key: string) {
    Key(item.sku) == key && item.qty.Some?
  }

  /** The quantity asked for under a code, case and blanks aside, added up in order. */
  function Total(add: Adder, items: seq<Item>, key: string): Float {
    if items == [] then ZERO
    else
      var last, before := items[|items| - 1], Total(add, items[..|items| - 1], key);
      if Under(last, key) then add(before, last.qty.value) else before
  }

  ghost predicate Asked(items: seq<Item>, key: string) {
    exists i :: 0 <= i < |items| && Key(items[i].sku) == key
  }

  /** The codes in the order they are first seen, spelled as then. */
  function Order(items: seq<Item>): (r: seq<string>)
    ensures |r| <= |items|
  {
    if items == [] then []
    else
      var before, sku := Order(items[..|items| - 1]), Trim(items[|items| - 1].sku);
      if Listed(before, Upper(sku)) then before else before + [sku]
  }

  predicate Listed(order: seq<string>, key: string) {
    exists i :: 0 <= i < |order| && Upper(order[i]) == key
  }

  /** One item a code, with its whole quantity. */
  function Merged(add: Adder, items: seq<Item>): (r: seq<Item>)
    ensures |r| == |Order(items)|
  {
    seq(|Order(items)|, i requires 0 <= i < |Order(items)| =>
      Item(Order(items)[i], Some(Total(add, items, Upper(Order(items)[i])))))
  }

  /** NormalizeTemplateParts. */
  ghost function Normalized(add: Adder, parts: Option<Value>): Result<Option<Value>> {
    match parts
    case None => Ok(None)
    case Some(Null) => Ok(Some(List([])))
    case Some(NotAList) => Err(BadInput)
    case Some(List(items)) => if AllOk(items) then Ok(Some(List(Merged(add, items)))) else Err(BadInput)
  }

  /** TemplateParts. */
  function Read(parts: Option<Value>): seq<Part> {
    if parts.Some? && parts.value.List? then ReadItems(parts.value.items) else []
  }

  function ReadItems(items: seq<Item>): seq<Part> {
    if items == [] then []
    else
      var last := items[|items| - 1];
      ReadItems(items[..|items| - 1])
      + (if Trim(last.sku) == "" || last.qty.None? || last.qty.value.AtMost(0.0) then []
         else [Part(Trim(last.sku), last.qty.value)])
  }

  class Template {
    var parts: Option<Value>

    method TemplateParts() returns (out: seq<Part>)
      ensures out == Read(parts)
    {
      out := [];
      if parts.Some? && parts.value.List? {
        var raw, i := parts.value.items, 0;
        while i < |raw|
          invariant 0 <= i <= |raw| && out == ReadItems(raw[..i])
        {
          var item := raw[i];
          assert raw[..i + 1][..i] == raw[..i];
          i := i + 1;
          if Trim(item.sku) == "" || item.qty.None? || item.qty.value.AtMost(0.0) {
            continue;
          }
          out := out + [Part(Trim(item.sku), item.qty.value)];
        }
        assert raw[..i] == raw;
      }
    }

    method NormalizeTemplateParts(add: Adder) returns (r: Result<()>)
      modifies this
      ensures var o := Normalized(add, old(parts));
        parts == (if o.Ok? then o.value else old(parts)) && r == (if o.Ok? then Ok(()) else Err(o.error))
    {
      if parts.None? {
        return Ok(());
      }
      if parts.value.Null? {
        parts := Some(List([]));
        return Ok(());
      }
      if parts.value.NotAList? {
        return Err(BadInput);
      }
      var list := parts.value.items;
      var gathered := Gather(list, add);
      if gathered.Err? {
        return Err(gathered.error);
      }
      var out, i := [], 0;
      var Quantities(qty, order) := gathered.value;
      while i < |order|
        invariant 0 <= i <= |order| && out == Merged(add, list)[..i] && parts == old(parts)
      {
        assert Listed(order, Upper(order[i]));
        out := out + [Item(order[i], Some(qty[Upper(order[i])]))];
        i := i + 1;
      }
      assert Merged(add, list)[..i] == Merged(add, list);
      parts := Some(List(out));
      r := Ok(());
    }
  }

  datatype Quantities = Quantities(qty: map<string, Float>, order: seq<string>)

  /** The quantities of the first items by code, and the codes in order. */
  ghost predicate Gathered(add: Adder, items: seq<Item>, q: Quantities) {
    && q.order == Order(items)
    && (forall key :: key in q.qty <==> Listed(q.order, key))
    && (forall key :: key in q.qty ==> q.qty[key] == Total(add, items, key))
  }

  lemma GatherOne(add: Adder, items: seq<Item>, item: Item, q: Quantities, q': Quantities)
    requires Gathered(add, items, q) && ItemOk(item)
    requires var key := Key(item.sku);
      && q'.order == (if key in q.qty then q.order else q.order + [Trim(item.sku)])
      && q'.qty == q.qty[key := add(if key in q.qty then q.qty[key] else ZERO, item.qty.value)]
    ensures Gathered(add, items + [item], q')
  {
    var key := Key(item.sku);
    OneMore(add, items, item);
    ListedMore(q.order, Trim(item.sku));
    if key !in q.qty { UnseenIsZero(add, items, key); }
  }

  /** The loop over the list as written. */
  method Gather(list: seq<Item>, add: Adder) returns (r: Result<Quantities>)
    ensures r.Ok? <==> AllOk(list)
    ensures if r.Ok? then Gathered(add, list, r.value) else r.error == BadInput
  {
    var qty: map<string, Float>, order := map[], [];
    var i := 0;
    while i < |list|
      invariant 0 <= i <= |list| && AllOk(list[..i]) && Gathered(add, list[..i], Quantities(qty, order))
    {
      var sku := Trim(list[i].sku);
      if sku == "" || |sku| > MAX_SKU {
        assert !ItemOk(list[i]);
        return Err(BadInput);
      }
      var q := list[i].qty;
      if q.None? || q.value.AtMost(0.0) || q.value.Above(MAX_QTY) {
        assert !ItemOk(list[i]);
        return Err(BadInput);
      }
      var key := Upper(sku);
      ghost var before := Quantities(qty, order);
      if key !in qty {
        order := order + [sku];
      }
      qty := qty[key := add(if key in qty then qty[key] else ZERO, q.value)];
      assert list[..i + 1] == list[..i] + [list[i]];
      GatherOne(add, list[..i], list[i], before, Quantities(qty, order));
      i := i + 1;
    }
    assert list[..i] == list;
    r := Ok(Quantities(qty, order));
  }

  // ---------------------------------------------------------------------------
  // One item more
  // ---------------------------------------------------------------------------

  lemma OrderMore(items: seq<Item>, item: Item)
    ensures Order(items + [item])
         == (if Listed(Order(items), Key(item.sku)) then Order(items) else Order(items) + [Trim(item.sku)])
  {
    assert (items + [item])[..|items|] == items;
  }

  lemma OneMore(add: Adder, items: seq<Item>, item: Item)
    ensures Order(items + [item])
         == (if Listed(Order(items), Key(item.sku)) then Order(items) else Order(items) + [Trim(item.sku)])
    ensures forall key ::
      var before := Total(add, items, key);
      Total(add, items + [item], key) == (if Under(item, key) then add(before, item.qty.value) else before)
  {
    assert (items + [item])[..|items|] == items;
  }

  lemma ListedMore(order: seq<string>, sku: string)
    ensures forall key :: Listed(order + [sku], key) <==> Listed(order, key) || key == Upper(sku)
  {
    var more := order + [sku];
    assert more[|order|] == sku;
    forall key | Listed(order, key) ensures Listed(more, key) {
      var i :| 0 <= i < |order| && Upper(order[i]) == key;
      assert more[i] == order[i];
    }
  }

  /** Exactly the codes asked for are listed. */
  lemma {:induction false} ListedIffAsked(items: seq<Item>, key: string)
    ensures Listed(Order(items), key) <==> Asked(items, key)
    decreases |items|
  {
    if items != [] {
      var front, last := items[..|items| - 1], items[|items| - 1];
      ListedIffAsked(front, key);
      assert items == front + [last];
      OrderMore(front, last);
      ListedMore(Order(front), Trim(last.sku));
      AskedMore(front, last, key);
    }
  }

  lemma {:induction false} UnseenIsZero(add: Adder, items: seq<Item>, key: string)
    requires !Listed(Order(items), key)
    ensures Total(add, items, key) == ZERO
    decreases |items|
  {
    if items != [] {
      var front, last := items[..|items| - 1], items[|items| - 1];
      assert items == front + [last];
      OneMore(add, front, last);
      ListedMore(Order(front), Trim(last.sku));
      UnseenIsZero(add, front, key);
    }
  }

  /** What is asked for adds up to something positive, or to no number. */
  lemma {:induction false} AskedCounts(add: Adder, items: seq<Item>, key: string)
    requires Lawful(add) && AllOk(items)
    ensures if Asked(items, key) then Counts(Total(add, items, key)) else Total(add, items, key) == ZERO
    decreases |items|
  {
    if items != [] {
      var front, last := items[..|items| - 1], items[|items| - 1];
      AskedCounts(add, front, key);
      AskedMore(front, last, key);
      assert items == front + [last];
    }
  }

  lemma AskedMore(front: seq<Item>, last: Item, key: string)
    ensures Asked(front + [last], key) <==> Asked(front, key) || Key(last.sku) == key
  {
    var items := front + [last];
    assert items[|front|] == last;
    if Asked(front, key) {
      var i :| 0 <= i < |front| && Key(front[i].sku) == key;
      assert items[i] == front[i];
    }
    if Asked(items, key) && Key(last.sku) != key {
      var i :| 0 <= i < |items| && Key(items[i].sku) == key;
      assert front[i] == items[i];
    }
  }

  /** An item of the code whose quantity is not a number. */
  ghost predicate Spoilt(items: seq<Item>, key: string) {
    exists i :: 0 <= i < |items| && Key(items[i].sku) == key && items[i].qty == Some(NaN)
  }

  lemma SpoiltMore(front: seq<Item>, last: Item, key: string)
    ensures Spoilt(front + [last], key) <==> Spoilt(front, key) || (Key(last.sku) == key && last.qty == Some(NaN))
  {
    var items := front + [last];
    assert items[|front|] == last;
    if Spoilt(front, key) {
      var i :| 0 <= i < |front| && Key(front[i].sku) == key && front[i].qty == Some(NaN);
      assert items[i] == front[i];
    }
    if Spoilt(items, key) && !(Key(last.sku) == key && last.qty == Some(NaN)) {
      var i :| 0 <= i < |items| && Key(items[i].sku) == key && items[i].qty == Some(NaN);
      assert front[i] == items[i];
    }
  }

  /** Not-a-number is never refused, and a code's total is no number exactly when one
      of its quantities is none. */
  lemma {:induction false} NotANumberSpoilsExactly(add: Adder, items: seq<Item>, key: string)
    requires Lawful(add) && AllOk(items)
    ensures Total(add, items, key).NaN? <==> Spoilt(items, key)
    decreases |items|
  {
    if items != [] {
      var front, last := items[..|items| - 1], items[|items| - 1];
      NotANumberSpoilsExactly(add, front, key);
      AskedCounts(add, front, key);
      SpoiltMore(front, last, key);
      assert items == front + [last];
    }
  }

  // ---------------------------------------------------------------------------
  // What merging keeps
  // ---------------------------------------------------------------------------

  ghost predicate CodesOnce(order: seq<string>) {
    && (forall i, j :: 0 <= i < j < |order| ==> Upper(order[i]) != Upper(order[j]))
    && (forall i :: 0 <= i < |order| ==> Trim(order[i]) == order[i])
  }

  lemma CodesOnceMore(order: seq<string>, sku: string)
    requires CodesOnce(order) && !Listed(order, Upper(sku)) && Trim(sku) == sku
    ensures CodesOnce(order + [sku])
  {
    var more := order + [sku];
    forall i, j | 0 <= i < j < |more| ensures Upper(more[i]) != Upper(more[j]) {
      assert more[i] == order[i];
    }
  }

  /** No code is listed twice, and each is trimmed. */
  lemma {:induction false} EachCodeOnce(items: seq<Item>)
    ensures CodesOnce(Order(items))
    decreases |items|
  {
    if items != [] {
      var front, sku := items[..|items| - 1], Trim(items[|items| - 1].sku);
      EachCodeOnce(front);
      TrimIsTrimmed(items[|items| - 1].sku);
      if !Listed(Order(front), Upper(sku)) { CodesOnceMore(Order(front), sku); }
    }
  }

  /** Item `k` is the first to ask for its code. */
  ghost predicate FirstAsks(items: seq<Item>, k: nat) {
    k < |items| && forall m :: 0 <= m < k ==> Key(items[m].sku) != Key(items[k].sku)
  }

  /** `at` names the items that first ask for each code of `order`, in their own order. */
  ghost predicate FirstSeen(items: seq<Item>, order: seq<string>, at: seq<nat>) {
    && |at| == |order|
    && (forall i :: 0 <= i < |at| ==> FirstAsks(items, at[i]) && order[i] == Trim(items[at[i]].sku))
    && (forall i, j :: 0 <= i < j < |at| ==> at[i] < at[j])
  }

  lemma FirstSeenLonger(items: seq<Item>, item: Item, order: seq<string>, at: seq<nat>)
    requires FirstSeen(items, order, at)
    ensures FirstSeen(items + [item], order, at)
    ensures !Asked(items, Key(item.sku)) ==> FirstSeen(items + [item], order + [Trim(item.sku)], at + [|items|])
  {
    var all := items + [item];
    forall i | 0 <= i < |at| ensures FirstAsks(all, at[i]) && all[at[i]] == items[at[i]] {
      assert FirstAsks(items, at[i]);
    }
    if !Asked(items, Key(item.sku)) {
      assert FirstAsks(all, |items|);
    }
  }

  /** Codes stand in the order, and the spelling, in which they were first asked for. */
  lemma {:induction false} FirstSeenOrder(items: seq<Item>) returns (at: seq<nat>)
    ensures FirstSeen(items, Order(items), at)
    decreases |items|
  {
    at := [];
    if items != [] {
      var front, last := items[..|items| - 1], items[|items| - 1];
      at := FirstSeenOrder(front);
      assert items == front + [last];
      ListedIffAsked(front, Key(last.sku));
      FirstSeenLonger(front, last, Order(front), at);
      if !Listed(Order(front), Key(last.sku)) { at := at + [|front|]; }
    }
  }

  /** The total of one item a code is that item's quantity. */
  lemma {:induction false} TotalOfDistinct(add: Adder, items: seq<Item>, k: nat)
    requires Lawful(add) && k < |items| && items[k].qty.Some? && DistinctKeys(items)
    ensures Total(add, items, Key(items[k].sku)) == items[k].qty.value
    decreases |items|
  {
    var front, last := items[..|items| - 1], items[|items| - 1];
    assert items == front + [last];
    LastIsNew(front, last);
    if k < |front| {
      TotalOfDistinct(add, front, k);
      assert front[k] == items[k];
    } else {
      TotalOfNone(add, front, Key(last.sku));
    }
  }

  lemma {:induction false} TotalOfNone(add: Adder, items: seq<Item>, key: string)
    requires !Asked(items, key)
    ensures Total(add, items, key) == ZERO
    decreases |items|
  {
    ListedIffAsked(items, key);
    UnseenIsZero(add, items, key);
  }

  lemma MergedKeys(add: Adder, items: seq<Item>)
    ensures var m := Merged(add, items);
      && (forall i :: 0 <= i < |m| ==> Key(m[i].sku) == Upper(Order(items)[i]))
      && DistinctKeys(m)
  {
    EachCodeOnce(items);
  }

  /** Nothing is lost and nothing invented: every code keeps its total. */
  lemma MergingConserves(add: Adder, items: seq<Item>, key: string)
    requires Lawful(add)
    ensures Total(add, Merged(add, items), key) == Total(add, items, key)
  {
    var m := Merged(add, items);
    MergedKeys(add, items);
    if Listed(Order(items), key) {
      var i :| 0 <= i < |Order(items)| && Upper(Order(items)[i]) == key;
      TotalOfDistinct(add, m, i);
    } else {
      UnseenIsZero(add, items, key);
      TotalOfNone(add, m, key);
    }
  }

  /** An item that reading neither drops nor alters. */
  predicate Clean(item: Item) {
    item.qty.Some? && !item.qty.value.AtMost(0.0) && item.sku != "" && Trim(item.sku) == item.sku
  }

  lemma {:induction false} ReadsAll(items: seq<Item>)
    requires forall i :: 0 <= i < |items| ==> Clean(items[i])
    ensures |ReadItems(items)| == |items|
    ensures forall i :: 0 <= i < |items| ==>
      Clean(items[i]) && ReadItems(items)[i] == Part(items[i].sku, items[i].qty.value)
    decreases |items|
  {
    if items != [] { ReadsAll(items[..|items| - 1]); }
  }

  lemma {:induction false} OrderIsNamed(items: seq<Item>)
    requires AllOk(items)
    ensures forall i :: 0 <= i < |Order(items)| ==> 0 < |Order(items)[i]| <= MAX_SKU
    decreases |items|
  {
    if items != [] { OrderIsNamed(items[..|items| - 1]); }
  }

  lemma MergedIsClean(add: Adder, items: seq<Item>, i: nat)
    requires Lawful(add) && AllOk(items) && i < |Merged(add, items)|
    ensures Clean(Merged(add, items)[i]) && |Merged(add, items)[i].sku| <= MAX_SKU
  {
    EachCodeOnce(items);
    OrderIsNamed(items);
    var key := Upper(Order(items)[i]);
    assert Listed(Order(items), key);
    ListedIffAsked(items, key);
    AskedCounts(add, items, key);
  }

  /** What was stored is read back as it is: each code once, with its whole quantity. */
  lemma NormalizedReadsBack(add: Adder, items: seq<Item>, i: nat)
    requires Lawful(add) && AllOk(items)
    ensures |Read(Normalized(add, Some(List(items))).value)| == |Order(items)|
    ensures i < |Order(items)| ==>
      var sku := Order(items)[i];
      Read(Normalized(add, Some(List(items))).value)[i] == Part(sku, Total(add, items, Upper(sku)))
  {
    var m := Merged(add, items);
    forall k | 0 <= k < |m| ensures Clean(m[k]) {
      MergedIsClean(add, items, k);
    }
    ReadsAll(m);
  }

  ghost predicate DistinctKeys(items: seq<Item>) {
    forall i, j :: 0 <= i < j < |items| ==> Key(items[i].sku) != Key(items[j].sku)
  }

  lemma LastIsNew(front: seq<Item>, last: Item)
    requires DistinctKeys(front + [last])
    ensures DistinctKeys(front) && !Asked(front, Key(last.sku))
  {
    var all := front + [last];
    forall i, j | 0 <= i < j < |front| ensures Key(front[i].sku) != Key(front[j].sku) {
      assert all[i] == front[i] && all[j] == front[j];
    }
    forall i | 0 <= i < |front| ensures Key(front[i].sku) != Key(last.sku) {
      assert all[i] == front[i] && all[|front|] == last;
    }
  }

  lemma {:induction false} OrderOfDistinct(items: seq<Item>)
    requires DistinctKeys(items)
    ensures |Order(items)| == |items|
    ensures forall i :: 0 <= i < |items| ==> Order(items)[i] == Trim(items[i].sku)
    decreases |items|
  {
    if items != [] {
      var front, last := items[..|items| - 1], items[|items| - 1];
      assert items == front + [last];
      LastIsNew(front, last);
      OrderOfDistinct(front);
      ListedIffAsked(front, Key(last.sku));
      OrderMore(front, last);
    }
  }

  lemma MergedTwice(add: Adder, items: seq<Item>)
    requires Lawful(add) && AllOk(items)
    ensures Merged(add, Merged(add, items)) == Merged(add, items)
  {
    var m := Merged(add, items);
    MergedKeys(add, items);
    OrderOfDistinct(m);
    forall i | 0 <= i < |m| ensures Merged(add, m)[i] == m[i] {
      MergedIsClean(add, items, i);
      TotalOfDistinct(add, m, i);
    }
  }

  /** Every code's total stays within what one item may ask for. */
  ghost predicate TotalsAllowed(add: Adder, items: seq<Item>) {
    forall i :: 0 <= i < |Order(items)| ==> !Total(add, items, Upper(Order(items)[i])).Above(MAX_QTY)
  }

  /** Writing a normalised list again changes nothing, exactly when no total
      outgrew the limit of one item; otherwise the list just stored is refused. */
  lemma RenormalisingIsHarmless(add: Adder, items: seq<Item>)
    requires Lawful(add) && AllOk(items)
    ensures var once := Normalized(add, Some(List(items))).value;
      Normalized(add, once) == (if TotalsAllowed(add, items) then Ok(once) else Err(BadInput))
  {
    var m := Merged(add, items);
    forall i | 0 <= i < |m|
      ensures ItemOk(m[i]) <==> !Total(add, items, Upper(Order(items)[i])).Above(MAX_QTY)
    {
      MergedIsClean(add, items, i);
    }
    MergedTwice(add, items);
  }

  /** It happens: two orders of the same part, each allowed, add up to one that is not. */
  lemma TwiceTheLimit(add: Adder, sku: string)
    requires Lawful(add) && add(Finite(MAX_QTY), Finite(MAX_QTY)).Above(MAX_QTY) && 0 < |Trim(sku)| <= MAX_SKU
    ensures var items := [Item(sku, Some(Finite(MAX_QTY))), Item(sku, Some(Finite(MAX_QTY)))];
      && Normalized(add, Some(List(items))).Ok?
      && Normalized(add, Normalized(add, Some(List(items))).value) == Err(BadInput)
  {
    var one := Item(sku, Some(Finite(MAX_QTY)));
    var items := [one] + [one];
    assert items == [one, one];
    OneMore(add, [one], one);
    OneMore(add, [], one);
    assert [] + [one] == [one];
    assert Order([one]) == [Trim(sku)];
    TrimIsTrimmed(sku);
    assert Listed(Order([one]), Key(sku)) by { assert Upper(Order([one])[0]) == Key(sku); }
    assert Order(items)[0] == Trim(sku) && Total(add, items, Key(sku)) == add(one.qty.value, one.qty.value);
    RenormalisingIsHarmless(add, items);
  }

  // ---------------------------------------------------------------------------
  // The list, item by item
  // ---------------------------------------------------------------------------

  /** Row `i` of the stored list is for the code, case aside. */
  ghost predicate Holds(stored: seq<Item>, i: nat, sku: string) {
    i < |stored| && Upper(stored[i].sku) == Upper(Trim(sku))
  }

  /** The list stored once one more item is asked for: its quantity added to the row of
      its code, or a row of its own at the end. */
  ghost predicate OneMoreStored(add: Adder, was: seq<Item>, item: Item, now: seq<Item>)
    requires item.qty.Some?
  {
    && (forall i: nat :: Holds(was, i, item.sku) ==>
          was[i].qty.Some? && now == was[i := was[i].(qty := Some(add(was[i].qty.value, item.qty.value)))])
    && ((forall i: nat :: !Holds(was, i, item.sku)) ==>
          now == was + [Item(Trim(item.sku), Some(add(ZERO, item.qty.value)))])
  }

  /** What is stored of a list, by its last item: that must have a code of 1 to 64
      characters, and a quantity that is neither 0 or less nor above 100,000. */
  lemma StoresExactly(add: Adder, items: seq<Item>, item: Item)
    requires Normalized(add, Some(List(items))).Ok?
    ensures var r := Normalized(add, Some(List(items + [item])));
      && (r.Ok? <==> 1 <= |Trim(item.sku)| <= 64 && item.qty.Some?
                     && !item.qty.value.AtMost(0.0) && !item.qty.value.Above(100_000.0))
      && (if r.Err? then r.error == BadInput
          else
            var was := Normalized(add, Some(List(items))).value;
            && r.value.Some? && r.value.value.List? && was.Some? && was.value.List?
            && OneMoreStored(add, was.value.items, item, r.value.value.items))
  {
    assert ItemOk((items + [item])[|items|]) <==> ItemOk(item);
    assert forall i :: 0 <= i < |items| ==> (items + [item])[i] == items[i];
    if Normalized(add, Some(List(items + [item]))).Ok? {
      MergesOneMore(add, items, item);
    }
  }

  lemma MergesOneMore(add: Adder, items: seq<Item>, item: Item)
    requires AllOk(items) && ItemOk(item)
    ensures OneMoreStored(add, Merged(add, items), item, Merged(add, items + [item]))
  {
    var was, now := Merged(add, items), Merged(add, items + [item]);
    OneMore(add, items, item);
    EachCodeOnce(items);
    if Listed(Order(items), Key(item.sku)) {
      var i :| 0 <= i < |Order(items)| && Upper(Order(items)[i]) == Key(item.sku);
      assert Holds(was, i, item.sku);
      assert now == was[i := was[i].(qty := Some(add(was[i].qty.value, item.qty.value)))];
    } else {
      forall i: nat ensures !Holds(was, i, item.sku) {
        assert i < |was| ==> was[i].sku == Order(items)[i];
      }
      UnseenIsZero(add, items, Key(item.sku));
      assert now == was + [Item(Trim(item.sku), Some(add(ZERO, item.qty.value)))];
    }
  }

  /** Where a stored list begins; and whatever else is under `parts`. */
  lemma StoresOtherwise(add: Adder)
    ensures Normalized(add, Some(List([]))) == Normalized(add, Some(Null)) == Ok(Some(List([])))
    ensures Normalized(add, None) == Ok(None) && Normalized(add, Some(NotAList)) == Err(BadInput)
  {}

  /** What is read of a list, by its last item: that is skipped when it has no code, or
      no quantity, or one of 0 or less. */
  lemma ReadsExactly(items: seq<Item>, item: Item)
    ensures Read(Some(List(items + [item])))
         == Read(Some(List(items)))
            + (if Trim(item.sku) != "" && item.qty.Some? && !item.qty.value.AtMost(0.0)
               then [Part(Trim(item.sku), item.qty.value)] else [])
    ensures Read(Some(List([]))) == Read(Some(Null)) == Read(Some(NotAList)) == Read(None) == []
  {
    assert (items + [item])[..|items|] == items;
  }
}
