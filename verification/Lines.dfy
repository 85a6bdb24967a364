/**
 Document lines, their aggregation by line key, and the semantic diff of two line
 collections (`_line_key`, `_aggregate_lines` and `compare_document_lines` of the
 correlation engine). Codes and descriptions are taken after normalisation.
 */
module Lines {
  import opened Options
  import opened Ordering

  datatype DocumentLine = DocumentLine(
    itemCode: Option<string>,        // normalised code
    descriptionKey: Option<string>,  // normalised description
    description: Option<string>,     // description as printed
    quantity: Option<real>,
    unitPrice: Option<real>,
    modifiedUnitPrice: Option<real>,
    discount: Option<real>,
    lineTotal: Option<real>,
    state: Option<string>,
    cancelled: bool,
    removed: bool,
    rawText: Option<string>,
    source: Option<int>)

  /** The texts `CODE:...`, `DESC:...` and `POSITION:n` that identify a line. */
  datatype Key = Code(code: string) | Description(text: string) | Position(ordinal: nat)

  /** The identity of a line; only an anonymous line depends on its position. */
  function LineKey(line: DocumentLine, ordinal: nat): Key {
    if line.itemCode.Some? then Code(line.itemCode.value)
    else if line.descriptionKey.Some? then Description(line.descriptionKey.value)
    else Position(ordinal)
  }

  /** The line has a code or a description, so its key does not depend on its position. */
  predicate Named(line: DocumentLine) {
    line.itemCode.Some? || line.descriptionKey.Some?
  }

  ghost predicate AllNamed(lines: seq<DocumentLine>) {
    forall i :: 0 <= i < |lines| ==> Named(lines[i])
  }

  function EffectiveUnitPrice(line: DocumentLine): Option<real> {
    if line.modifiedUnitPrice.Some? then line.modifiedUnitPrice else line.unitPrice
  }

  /** A missing quantity stands for one piece; a zero stays zero. */
  function CountedQuantity(line: DocumentLine): real {
    if line.quantity.Some? then line.quantity.value else 1.0
  }

  datatype Entry = Entry(
    description: Option<string>,
    quantity: real,
    unitPrice: Option<real>,
    discount: Option<real>,
    total: Option<real>,
    source: Option<int>)

  function AddTotals(a: Option<real>, b: Option<real>): Option<real> {
    if a.Some? && b.Some? then Some(a.value + b.value) else if b.Some? then b else a
  }

  function AddLine(entries: map<Key, Entry>, line: DocumentLine, key: Key): map<Key, Entry> {
    if key !in entries then
      entries[key := Entry(line.description, CountedQuantity(line), EffectiveUnitPrice(line),
                           line.discount, line.lineTotal, line.source)]
    else
      var e := entries[key];
      entries[key := e.(quantity := e.quantity + CountedQuantity(line),
                        total := AddTotals(e.total, line.lineTotal),
                        unitPrice := EffectiveUnitPrice(line))]
  }

  function Aggregate(lines: seq<DocumentLine>): map<Key, Entry> {
    if lines == [] then map[]
    else
      var n := |lines| - 1;
      AddLine(Aggregate(lines[..n]), lines[n], LineKey(lines[n], n))
  }

  method AggregateLines(lines: seq<DocumentLine>) returns (aggregated: map<Key, Entry>)
    ensures aggregated == Aggregate(lines)
  {
    aggregated := map[];
    for ordinal := 0 to |lines|
      invariant aggregated == Aggregate(lines[..ordinal])
    {
      var line := lines[ordinal];
      var key := LineKey(line, ordinal);
      assert lines[..ordinal + 1][..ordinal] == lines[..ordinal];
      if key !in aggregated {
        aggregated := aggregated[key := Entry(line.description, CountedQuantity(line),
                                              EffectiveUnitPrice(line), line.discount,
                                              line.lineTotal, line.source)];
      } else {
        var existing := aggregated[key];
        existing := existing.(quantity := existing.quantity + CountedQuantity(line));
        if existing.total.Some? && line.lineTotal.Some? {
          existing := existing.(total := Some(existing.total.value + line.lineTotal.value));
        } else if line.lineTotal.Some? {
          existing := existing.(total := line.lineTotal);
        }
        if existing.unitPrice != EffectiveUnitPrice(line) {
          existing := existing.(unitPrice := EffectiveUnitPrice(line));
        }
        aggregated := aggregated[key := existing];
      }
    }
    assert lines[..|lines|] == lines;
  }

  // What aggregation means, key by key, without mentioning how it is computed.

  ghost predicate Occurs(lines: seq<DocumentLine>, key: Key) {
    exists i :: 0 <= i < |lines| && LineKey(lines[i], i) == key
  }

  function QuantityOf(lines: seq<DocumentLine>, key: Key): real {
    if lines == [] then 0.0
    else
      var n := |lines| - 1;
      QuantityOf(lines[..n], key) +
      (if LineKey(lines[n], n) != key then 0.0 else if lines[n].quantity.None? then 1.0 else lines[n].quantity.value)
  }

  ghost predicate FirstWith(lines: seq<DocumentLine>, key: Key, i: int) {
    0 <= i < |lines| && LineKey(lines[i], i) == key && forall j :: 0 <= j < i ==> LineKey(lines[j], j) != key
  }

  ghost predicate LastWith(lines: seq<DocumentLine>, key: Key, i: int) {
    0 <= i < |lines| && LineKey(lines[i], i) == key && forall j :: i < j < |lines| ==> LineKey(lines[j], j) != key
  }

  /**
   Two lines have one key iff they have the same code, or neither has a code and they have the same
   description, or neither has either and they stand at the same position.
   */
  lemma SameKey(a: DocumentLine, i: nat, b: DocumentLine, j: nat)
    ensures LineKey(a, i) == LineKey(b, j) <==>
            || (a.itemCode.Some? && a.itemCode == b.itemCode)
            || (a.itemCode.None? && b.itemCode.None? && a.descriptionKey.Some? && a.descriptionKey == b.descriptionKey)
            || (a.itemCode.None? && b.itemCode.None? && a.descriptionKey.None? && b.descriptionKey.None? && i == j)
  {
  }

  lemma OccursExtend(lines: seq<DocumentLine>, key: Key)
    requires lines != []
    ensures var n := |lines| - 1; Occurs(lines, key) <==> Occurs(lines[..n], key) || LineKey(lines[n], n) == key
  {
    var n := |lines| - 1;
    if Occurs(lines[..n], key) {
      var i :| 0 <= i < n && LineKey(lines[..n][i], i) == key;
      assert LineKey(lines[i], i) == key;
    }
    if Occurs(lines, key) && LineKey(lines[n], n) != key {
      var i :| 0 <= i < |lines| && LineKey(lines[i], i) == key;
      assert LineKey(lines[..n][i], i) == key;
    }
  }

  /** An aggregated key is a key that occurs, and its quantity is the sum over all of its lines. */
  lemma {:induction false} AggregateQuantity(lines: seq<DocumentLine>, key: Key)
    ensures key in Aggregate(lines) <==> Occurs(lines, key)
    ensures QuantityOf(lines, key) == if key in Aggregate(lines) then Aggregate(lines)[key].quantity else 0.0
    decreases |lines|
  {
    if lines != [] {
      AggregateQuantity(lines[..|lines| - 1], key);
      OccursExtend(lines, key);
    }
  }

  /** Description, discount and source are those of the first line of a key; its price is that of the last one. */
  lemma {:induction false} AggregateFirstAndLast(lines: seq<DocumentLine>, key: Key, first: nat, last: nat)
    requires FirstWith(lines, key, first) && LastWith(lines, key, last)
    ensures key in Aggregate(lines)
    ensures Aggregate(lines)[key].description == lines[first].description
    ensures Aggregate(lines)[key].discount == lines[first].discount
    ensures Aggregate(lines)[key].source == lines[first].source
    ensures Aggregate(lines)[key].unitPrice == EffectiveUnitPrice(lines[last])
    decreases |lines|
  {
    var n := |lines| - 1;
    AggregateQuantity(lines[..n], key);
    if first == n {
      assert !Occurs(lines[..n], key);
    } else {
      assert FirstWith(lines[..n], key, first);
      var prev := PreviousWith(lines[..n], key, first);
      AggregateFirstAndLast(lines[..n], key, first, prev);
    }
  }

  lemma {:induction false} PreviousWith(lines: seq<DocumentLine>, key: Key, at: nat) returns (last: nat)
    requires at < |lines| && LineKey(lines[at], at) == key
    ensures LastWith(lines, key, last)
    decreases |lines| - at
  {
    if j :| at < j < |lines| && LineKey(lines[j], j) == key {
      last := PreviousWith(lines, key, j);
    } else {
      last := at;
    }
  }

  /** The sum of the printed totals of the key's lines. */
  function TotalsOf(lines: seq<DocumentLine>, key: Key): real {
    if lines == [] then 0.0
    else
      var n := |lines| - 1;
      TotalsOf(lines[..n], key) +
      (if LineKey(lines[n], n) == key && lines[n].lineTotal.Some? then lines[n].lineTotal.value else 0.0)
  }

  ghost predicate HasTotal(lines: seq<DocumentLine>, key: Key) {
    exists i :: 0 <= i < |lines| && LineKey(lines[i], i) == key && lines[i].lineTotal.Some?
  }

  lemma HasTotalExtend(lines: seq<DocumentLine>, key: Key)
    requires lines != []
    ensures var n := |lines| - 1;
            HasTotal(lines, key) <==>
            HasTotal(lines[..n], key) || (LineKey(lines[n], n) == key && lines[n].lineTotal.Some?)
  {
    var n := |lines| - 1;
    if i :| 0 <= i < n && LineKey(lines[..n][i], i) == key && lines[..n][i].lineTotal.Some? {
      assert LineKey(lines[i], i) == key && lines[i].lineTotal.Some?;
    }
    if i :| 0 <= i < |lines| && LineKey(lines[i], i) == key && lines[i].lineTotal.Some? {
      assert i < n ==> LineKey(lines[..n][i], i) == key && lines[..n][i].lineTotal.Some?;
    }
  }

  /** The aggregated total is the sum of the totals that are printed, and absent if none is. */
  lemma {:induction false} AggregateTotal(lines: seq<DocumentLine>, key: Key)
    ensures key !in Aggregate(lines) ==> TotalsOf(lines, key) == 0.0 && !HasTotal(lines, key)
    ensures key in Aggregate(lines) ==>
              Aggregate(lines)[key].total == if HasTotal(lines, key) then Some(TotalsOf(lines, key)) else None
    ensures !HasTotal(lines, key) ==> TotalsOf(lines, key) == 0.0
    decreases |lines|
  {
    if lines != [] {
      AggregateTotal(lines[..|lines| - 1], key);
      HasTotalExtend(lines, key);
    }
  }

  // The semantic diff.

  datatype ChangeType = Added | Removed | QuantityChanged | PriceChanged | DiscountChanged | Unchanged

  datatype LineChange = LineChange(itemKey: Key, changeType: ChangeType, before: Option<Entry>, after: Option<Entry>)

  function Lookup(entries: map<Key, Entry>, key: Key): Option<Entry> {
    if key in entries then Some(entries[key]) else None
  }

  function Classify(was: Option<Entry>, now: Option<Entry>): ChangeType {
    if was.None? then Added
    else if now.None? then Removed
    else if was.value.quantity != now.value.quantity then QuantityChanged
    else if was.value.unitPrice != now.value.unitPrice then PriceChanged
    else if was.value.discount != now.value.discount then DiscountChanged
    else Unchanged
  }

  function CharCodes(s: string): seq<int> {
    seq(|s|, i requires 0 <= i < |s| => s[i] as int)
  }

  function DecimalDigits(n: nat): seq<int> {
    (if n < 10 then [] else DecimalDigits(n / 10)) + [n % 10]
  }

  function DecimalValue(digits: seq<int>): int {
    if digits == [] then 0 else 10 * DecimalValue(digits[..|digits| - 1]) + digits[|digits| - 1]
  }

  /** The digits write the number. */
  ghost predicate Writes(digits: seq<int>, n: nat) {
    digits != [] && DecimalValue(digits) == n && forall i :: 0 <= i < |digits| ==> 0 <= digits[i] <= 9
  }

  lemma OneMoreDigit(digits: seq<int>, n: nat, d: nat)
    requires Writes(digits, n) && d <= 9
    ensures Writes(digits + [d], 10 * n + d)
  {
    assert (digits + [d])[..|digits|] == digits;
  }

  lemma DigitsStep(n: nat)
    ensures n < 10 ==> DecimalDigits(n) == [n]
    ensures n >= 10 ==> DecimalDigits(n) == DecimalDigits(n / 10) + [n % 10]
  {
  }

  lemma OneDigit(n: nat)
    requires n <= 9
    ensures Writes([n], n)
  {
    var none: seq<int> := [];
    assert [n][..0] == none && DecimalValue(none) == 0;
  }

  /** Positions are written in decimal without leading zeros. */
  lemma {:induction false} DigitsWriteNumber(n: nat)
    ensures Writes(DecimalDigits(n), n) && (n > 0 ==> DecimalDigits(n)[0] != 0)
    decreases n
  {
    DigitsStep(n);
    if n < 10 {
      OneDigit(n);
    } else {
      var q, r := n / 10, n % 10;
      assert n == 10 * q + r && 0 < q < n;
      DigitsWriteNumber(q);
      OneMoreDigit(DecimalDigits(q), q, r);
    }
  }

  /**
   The string order of key texts: `CODE:` before `DESC:` before `POSITION:`, then by
   characters; positions compare as decimal texts, so 10 comes before 9.
   */
  function TextOrder(key: Key): seq<int> {
    match key
    case Code(c) => [0] + CharCodes(c)
    case Description(d) => [1] + CharCodes(d)
    case Position(n) => [2] + DecimalDigits(n)
  }

  lemma CharCodesInjective(a: string, b: string)
    requires CharCodes(a) == CharCodes(b)
    ensures a == b
  {
    assert |CharCodes(a)| == |a| && |CharCodes(b)| == |b|;
    forall i | 0 <= i < |a| ensures a[i] == b[i] {
      assert CharCodes(a)[i] == a[i] as int && CharCodes(b)[i] == b[i] as int;
    }
  }

  lemma {:induction false} DecimalDigitsInjective(m: nat, n: nat)
    requires DecimalDigits(m) == DecimalDigits(n)
    ensures m == n
    decreases m
  {
    var p, q := DecimalDigits(m), DecimalDigits(n);
    assert p[|p| - 1] == m % 10 && q[|q| - 1] == n % 10;
    assert p[..|p| - 1] == q[..|q| - 1];
    if m >= 10 && n >= 10 {
      assert p[..|p| - 1] == DecimalDigits(m / 10) && q[..|q| - 1] == DecimalDigits(n / 10);
      DecimalDigitsInjective(m / 10, n / 10);
    }
  }

  lemma TextOrderInjective(a: Key, b: Key)
    requires TextOrder(a) == TextOrder(b)
    ensures a == b
  {
    assert TextOrder(a)[0] == TextOrder(b)[0];
    assert TextOrder(a)[1..] == TextOrder(b)[1..];
    match a {
      case Code(c) => assert TextOrder(a)[1..] == CharCodes(c); CharCodesInjective(c, b.code);
      case Description(d) => assert TextOrder(a)[1..] == CharCodes(d); CharCodesInjective(d, b.text);
      case Position(n) => assert TextOrder(a)[1..] == DecimalDigits(n); DecimalDigitsInjective(n, b.ordinal);
    }
  }

  function ChangeOf(left: map<Key, Entry>, right: map<Key, Entry>, key: Key): LineChange {
    LineChange(key, Classify(Lookup(left, key), Lookup(right, key)), Lookup(left, key), Lookup(right, key))
  }

  function Changes(left: map<Key, Entry>, right: map<Key, Entry>, keys: seq<Key>): (r: seq<LineChange>)
    ensures |r| == |keys|
    ensures forall i :: 0 <= i < |keys| ==> r[i] == ChangeOf(left, right, keys[i])
  {
    if keys == [] then []
    else
      var n := |keys| - 1;
      Changes(left, right, keys[..n]) + [ChangeOf(left, right, keys[n])]
  }

  ghost function Diff(before: seq<DocumentLine>, after: seq<DocumentLine>): seq<LineChange> {
    var left, right := Aggregate(before), Aggregate(after);
    Changes(left, right, Arranged(left.Keys + right.Keys, TextOrder))
  }

  method ListChanges(left: map<Key, Entry>, right: map<Key, Entry>, keys: seq<Key>) returns (result: seq<LineChange>)
    ensures result == Changes(left, right, keys)
  {
    result := [];
    for i := 0 to |keys|
      invariant |result| == i
      invariant forall j :: 0 <= j < i ==> result[j] == ChangeOf(left, right, keys[j])
    {
      var was, now := Lookup(left, keys[i]), Lookup(right, keys[i]);
      result := result + [LineChange(keys[i], Classify(was, now), was, now)];
    }
  }

  method CompareDocumentLines(before: seq<DocumentLine>, after: seq<DocumentLine>) returns (result: seq<LineChange>)
    ensures result == Diff(before, after)
  {
    var left := AggregateLines(before);
    var right := AggregateLines(after);
    forall a, b | TextOrder(a) == TextOrder(b) ensures a == b {
      TextOrderInjective(a, b);
    }
    var keys := SortedSet(left.Keys + right.Keys, TextOrder);
    result := ListChanges(left, right, keys);
  }

  /** The diff reports each key that occurs on either side exactly once, in string order. */
  lemma DiffReportsEachKeyOnce(before: seq<DocumentLine>, after: seq<DocumentLine>)
    ensures var d := Diff(before, after);
            && (forall i, j :: 0 <= i < j < |d| ==> LexLess(TextOrder(d[i].itemKey), TextOrder(d[j].itemKey)))
            && (forall k :: (exists i :: 0 <= i < |d| && d[i].itemKey == k) <==> Occurs(before, k) || Occurs(after, k))
  {
    var left, right := Aggregate(before), Aggregate(after);
    var all := left.Keys + right.Keys;
    var keys := Arranged(all, TextOrder);
    var d := Diff(before, after);
    ArrangedElements(all, TextOrder);
    SortByIsSorted(Listing(all), TextOrder);
    forall i, j | 0 <= i < j < |d| ensures LexLess(TextOrder(d[i].itemKey), TextOrder(d[j].itemKey)) {
      LexTotal(TextOrder(keys[i]), TextOrder(keys[j]));
      if TextOrder(keys[i]) == TextOrder(keys[j]) { TextOrderInjective(keys[i], keys[j]); }
    }
    forall k ensures (exists i :: 0 <= i < |d| && d[i].itemKey == k) <==> Occurs(before, k) || Occurs(after, k) {
      AggregateQuantity(before, k);
      AggregateQuantity(after, k);
      if k in keys {
        var i :| 0 <= i < |keys| && keys[i] == k;
        assert d[i].itemKey == k;
      }
    }
  }

  /** The diff has exactly one entry for each key, found by its position. */
  lemma DiffEntryOf(before: seq<DocumentLine>, after: seq<DocumentLine>, i: nat)
    requires i < |Diff(before, after)|
    ensures var c := Diff(before, after)[i];
            && c == ChangeOf(Aggregate(before), Aggregate(after), c.itemKey)
            && (Occurs(before, c.itemKey) || Occurs(after, c.itemKey))
  {
    var all := Aggregate(before).Keys + Aggregate(after).Keys;
    ArrangedElements(all, TextOrder);
    var key := Arranged(all, TextOrder)[i];
    assert key in Arranged(all, TextOrder);
    AggregateQuantity(before, key);
    AggregateQuantity(after, key);
  }

  /** One side of a reported change: what the lines of the key say. */
  ghost predicate Describes(e: Option<Entry>, lines: seq<DocumentLine>, key: Key) {
    && (e.Some? <==> Occurs(lines, key))
    && (e.Some? ==>
          && e.value.quantity == QuantityOf(lines, key)
          && e.value.total == (if HasTotal(lines, key) then Some(TotalsOf(lines, key)) else None)
          && (forall i :: FirstWith(lines, key, i) ==> e.value.description == lines[i].description)
          && (forall i :: FirstWith(lines, key, i) ==> e.value.discount == lines[i].discount)
          && (forall i :: FirstWith(lines, key, i) ==> e.value.source == lines[i].source)
          && (forall i :: LastWith(lines, key, i) ==>
                e.value.unitPrice == if lines[i].modifiedUnitPrice.Some? then lines[i].modifiedUnitPrice
                                     else lines[i].unitPrice))
  }

  lemma LookupDescribes(lines: seq<DocumentLine>, key: Key)
    ensures Describes(Lookup(Aggregate(lines), key), lines, key)
  {
    AggregateQuantity(lines, key);
    AggregateTotal(lines, key);
    forall i | FirstWith(lines, key, i)
      ensures var e := Aggregate(lines)[key];
              e.description == lines[i].description && e.discount == lines[i].discount && e.source == lines[i].source
    {
      var last := PreviousWith(lines, key, i);
      AggregateFirstAndLast(lines, key, i, last);
    }
    forall i | LastWith(lines, key, i) ensures Aggregate(lines)[key].unitPrice == EffectiveUnitPrice(lines[i]) {
      var first := FirstOccurrence(lines, key, i);
      AggregateFirstAndLast(lines, key, first, i);
    }
  }

  lemma {:induction false} FirstOccurrence(lines: seq<DocumentLine>, key: Key, at: nat) returns (first: nat)
    requires at < |lines| && LineKey(lines[at], at) == key
    ensures FirstWith(lines, key, first)
    decreases at
  {
    if j :| 0 <= j < at && LineKey(lines[j], j) == key {
      first := FirstOccurrence(lines, key, j);
    } else {
      first := at;
    }
  }

  /**
   Every entry of the diff describes the lines of its key before and after, and its type says what
   differs first: the presence, then the quantity, then the price, then the discount.
   */
  lemma DiffMeaning(before: seq<DocumentLine>, after: seq<DocumentLine>, i: nat)
    requires i < |Diff(before, after)|
    ensures var c := Diff(before, after)[i];
            && Describes(c.before, before, c.itemKey) && Describes(c.after, after, c.itemKey)
            && (c.changeType == Added <==> !Occurs(before, c.itemKey))
            && (c.changeType == Removed <==> !Occurs(after, c.itemKey))
            && (c.before.Some? && c.after.Some? ==>
                  var was, now := c.before.value, c.after.value;
                  && (c.changeType == QuantityChanged <==> was.quantity != now.quantity)
                  && (c.changeType == PriceChanged <==> was.quantity == now.quantity && was.unitPrice != now.unitPrice)
                  && (c.changeType == DiscountChanged <==>
                      was.quantity == now.quantity && was.unitPrice == now.unitPrice && was.discount != now.discount)
                  && (c.changeType == Unchanged <==>
                      was.quantity == now.quantity && was.unitPrice == now.unitPrice && was.discount == now.discount))
  {
    DiffEntryOf(before, after, i);
    LookupDescribes(before, Diff(before, after)[i].itemKey);
    LookupDescribes(after, Diff(before, after)[i].itemKey);
  }
}
