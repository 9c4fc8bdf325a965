/** The sale-entry workflow of the main window (SaleTrack/MainWindow.xaml.cs):
    `Lookup` and `AddCurrentSale` over the fields `_currentProduct` and
    `_sales`, the four text boxes and the "allow decimal" check box.

    The text boxes are plain strings. `decimal.TryParse` and `int.TryParse`
    are parameters that map the trimmed text to a parsed value or `None`;
    the two clocks are opaque strings passed in. */
module SaleWindow {
  import opened Wrappers
  import opened Text
  import opened Data

  /** The range of C# `int`, the result type of `int.TryParse`. */
  newtype Int32 = x: int | -0x8000_0000 <= x < 0x8000_0000

  /** The anonymous object put at the head of `_sales`. */
  datatype SaleEntry = SaleEntry(name: string, unitPrice: real, quantity: real, total: real, soldAt: string)

  /** The input controls: barcode, name, unit price and quantity text boxes,
      and the "allow decimal quantity" check box. */
  datatype Form = Form(barcode: string, name: string, unitPrice: string, quantity: string, allowDecimal: bool)

  /** The inputs as they are after every successful sale. */
  const ClearedForm: Form := Form("", "", "", "", false)

  /** `var total = _currentProduct.UnitPrice * qty;` (line 163). */
  function LineTotal(unitPrice: real, quantity: real): real
  {
    unitPrice * quantity
  }

  /** The window's state: `_currentProduct`, `_sales` and the inputs. */
  datatype Screen = Screen(current: Option<Product>, sales: seq<SaleEntry>, form: Form)

  /** How `AddCurrentSale` ended: which message it showed, or the sale. */
  datatype Outcome = NoProduct | InvalidPrice | ProductUnresolved | InvalidQuantity | Recorded

  /** The window and the database after one `AddCurrentSale`. */
  datatype Step = Step(outcome: Outcome, screen: Screen, tables: Tables)

  /** The manual-entry part of `AddCurrentSale`: refused with a message, or a
      (possibly still missing) product and the tables after any insert. */
  datatype Resolution = Rejected(reason: Outcome) | Resolved(current: Option<Product>, tables: Tables)

  // ---------------------------------------------------------------------
  // Specification
  // ---------------------------------------------------------------------

  /** `Lookup` (SaleTrack/MainWindow.xaml.cs:26-43): a hit fills the name and
      price boxes from the product, a miss clears them for manual entry. */
  function LookupScreen(s: Screen, ps: seq<ProductRow>, barcode: string, formatPrice: real -> string): Screen
  {
    var found := GetProductByBarcode(ps, Some(barcode));
    if found.Some? then
      s.(current := found, form := s.form.(name := found.value.name, unitPrice := formatPrice(found.value.unitPrice)))
    else
      s.(current := None, form := s.form.(name := "", unitPrice := ""))
  }

  /** Lines 91-114 of SaleTrack/MainWindow.xaml.cs: take the product stored
      under the barcode, or `INSERT OR IGNORE` one and look it up again. */
  function ResolveByBarcode(t: Tables, barcode: string, name: string, price: real): Resolution
  {
    var existing := GetProductByBarcode(t.products, Some(barcode));
    if existing.Some? then Resolved(existing, t)
    else
      var t' := WithProduct(t, Some(barcode), name, price);
      Resolved(GetProductByBarcode(t'.products, Some(barcode)), t')
  }

  /** Lines 115-134: insert a NULL-barcode product and read back the row that
      `last_insert_rowid()` names, with an empty barcode. */
  function ResolveWithoutBarcode(t: Tables, name: string, price: real): Resolution
  {
    var t' := WithProduct(t, None, name, price);
    var row := FindById(t'.products, t'.productSeq);
    Resolved(if row.Some? then Some(Product(row.value.id, "", row.value.name, row.value.unitPrice)) else None, t')
  }

  /** Lines 73-135: with no current product, refuse a blank name or a price
      that does not parse or is negative, then resolve the product by the
      typed barcode or, without one, by a fresh insert. */
  function ResolveProduct(s: Screen, t: Tables, parseDecimal: string -> Option<real>): Resolution
  {
    if s.current.Some? then Resolved(s.current, t)
    else
      var name := Trim(s.form.name);
      if name == "" then Rejected(NoProduct)
      else
        var price := parseDecimal(Trim(s.form.unitPrice));
        if price.None? || price.value < 0.0 then Rejected(InvalidPrice)
        else
          var barcode := Trim(s.form.barcode);
          if !IsNullOrWhiteSpace(Some(barcode)) then ResolveByBarcode(t, barcode, name, price.value)
          else ResolveWithoutBarcode(t, name, price.value)
  }

  /** Lines 143-161: the quantity, parsed as a decimal or as an `int`
      according to the check box, and refused unless it is positive. */
  function ParseQuantity(form: Form, parseDecimal: string -> Option<real>, parseInt: string -> Option<Int32>): Option<real>
  {
    var text := Trim(form.quantity);
    if form.allowDecimal then
      var q := parseDecimal(text);
      if q.None? || q.value <= 0.0 then None else q
    else
      var q := parseInt(text);
      if q.None? || q.value <= 0 then None else Some(q.value as int as real)
  }

  /** Lines 137-174: with a product, a valid quantity records one sale at
      `UnitPrice * qty`, shows it first in `_sales` and resets the inputs. */
  function RecordSale(s: Screen, t: Tables, parseDecimal: string -> Option<real>, parseInt: string -> Option<Int32>,
                      utcNow: string, localNow: string): Step
  {
    if s.current.None? then Step(ProductUnresolved, s, t)
    else
      match ParseQuantity(s.form, parseDecimal, parseInt)
      case None => Step(InvalidQuantity, s, t)
      case Some(qty) =>
        var p := s.current.value;
        var total := LineTotal(p.unitPrice, qty);
        Step(Recorded,
             Screen(None, [SaleEntry(p.name, p.unitPrice, qty, total, localNow)] + s.sales, ClearedForm),
             WithSale(t, p.id, qty, p.unitPrice, total, utcNow))
  }

  /** `AddCurrentSale` (SaleTrack/MainWindow.xaml.cs:71-175) as a value. */
  function SaleStep(s: Screen, t: Tables, parseDecimal: string -> Option<real>, parseInt: string -> Option<Int32>,
                    utcNow: string, localNow: string): Step
  {
    match ResolveProduct(s, t, parseDecimal)
    case Rejected(reason) => Step(reason, s, t)
    case Resolved(current, t') => RecordSale(s.(current := current), t', parseDecimal, parseInt, utcNow, localNow)
  }

  /** The in-memory product matches a stored row in id, name and price (its
      barcode is "" for a product read back without one). */
  predicate Stored(ps: seq<ProductRow>, p: Product)
  {
    exists i :: 0 <= i < |ps| && ps[i].id == p.id && ps[i].name == p.name && ps[i].unitPrice == p.unitPrice
  }

  /** What the window keeps true between events: the tables are valid and a
      current product is one of the stored products. */
  predicate Consistent(s: Screen, t: Tables)
  {
    ValidTables(t) && (s.current.Some? ==> Stored(t.products, s.current.value))
  }

  // ---------------------------------------------------------------------
  // Lookup
  // ---------------------------------------------------------------------

  /** A hit makes the stored product current and shows its name and price;
      nothing else changes. */
  lemma LookupHit(s: Screen, t: Tables, barcode: string, formatPrice: real -> string, i: nat)
    requires ValidTables(t) && i < |t.products|
    requires t.products[i].barcode == Some(barcode) && !IsBlank(barcode)
    ensures var p := t.products[i];
      LookupScreen(s, t.products, barcode, formatPrice)
        == s.(current := Some(Product(p.id, barcode, p.name, p.unitPrice)),
              form := s.form.(name := p.name, unitPrice := formatPrice(p.unitPrice)))
  {
    LookupFindsStoredRow(t.products, i, barcode);
  }

  /** A miss, blank input included, clears the current product and the name
      and price boxes; nothing else changes. */
  lemma LookupMiss(s: Screen, ps: seq<ProductRow>, barcode: string, formatPrice: real -> string)
    requires IsBlank(barcode) || !HasBarcode(ps, barcode)
    ensures LookupScreen(s, ps, barcode, formatPrice) == s.(current := None, form := s.form.(name := "", unitPrice := ""))
  {
  }

  /** After a lookup the current product, if any, is a stored one. */
  lemma LookupKeepsConsistent(s: Screen, t: Tables, barcode: string, formatPrice: real -> string)
    requires ValidTables(t)
    ensures Consistent(LookupScreen(s, t.products, barcode, formatPrice), t)
  {
    var found := GetProductByBarcode(t.products, Some(barcode));
    if found.Some? {
      var p := found.value;
      var i :| 0 <= i < |t.products| && t.products[i] == ProductRow(p.id, Some(barcode), p.name, p.unitPrice);
      assert t.products[i].id == p.id;
    }
  }

  // ---------------------------------------------------------------------
  // Validation of the manual entry
  // ---------------------------------------------------------------------

  /** A refusal of the manual entry is the whole step: nothing is written and
      the window is unchanged. */
  lemma RejectionIsFinal(s: Screen, t: Tables, pd: string -> Option<real>, pi: string -> Option<Int32>, utcNow: string, localNow: string)
    requires ResolveProduct(s, t, pd).Rejected?
    ensures SaleStep(s, t, pd, pi, utcNow, localNow) == Step(ResolveProduct(s, t, pd).reason, s, t)
  {
  }

  /** Once the product is settled, the step is the recording of the sale
      for it on the tables as the resolution left them. */
  lemma ResolutionThenRecord(s: Screen, t: Tables, pd: string -> Option<real>, pi: string -> Option<Int32>, utcNow: string, localNow: string)
    requires ResolveProduct(s, t, pd).Resolved?
    ensures SaleStep(s, t, pd, pi, utcNow, localNow)
      == RecordSale(s.(current := ResolveProduct(s, t, pd).current), ResolveProduct(s, t, pd).tables, pd, pi, utcNow, localNow)
  {
  }

  /** No current product and a blank name: refused, nothing written, nothing
      changed. */
  lemma BlankNameWritesNothing(s: Screen, t: Tables, pd: string -> Option<real>, pi: string -> Option<Int32>, utcNow: string, localNow: string)
    requires s.current.None? && IsBlank(s.form.name)
    ensures SaleStep(s, t, pd, pi, utcNow, localNow) == Step(NoProduct, s, t)
  {
    TrimEmptyIffBlank(s.form.name);
    assert ResolveProduct(s, t, pd) == Rejected(NoProduct);
    RejectionIsFinal(s, t, pd, pi, utcNow, localNow);
  }

  /** No current product, a name, and a price that does not parse or is
      negative: refused, nothing written, nothing changed. */
  lemma BadPriceWritesNothing(s: Screen, t: Tables, pd: string -> Option<real>, pi: string -> Option<Int32>, utcNow: string, localNow: string)
    requires s.current.None? && !IsBlank(s.form.name)
    requires pd(Trim(s.form.unitPrice)).None? || pd(Trim(s.form.unitPrice)).value < 0.0
    ensures SaleStep(s, t, pd, pi, utcNow, localNow) == Step(InvalidPrice, s, t)
  {
    TrimEmptyIffBlank(s.form.name);
    assert ResolveProduct(s, t, pd) == Rejected(InvalidPrice);
    RejectionIsFinal(s, t, pd, pi, utcNow, localNow);
  }

  /** The input that passes the name and price checks of the manual entry. */
  predicate ManualEntryAccepted(s: Screen, pd: string -> Option<real>)
  {
    && s.current.None?
    && Trim(s.form.name) != ""
    && pd(Trim(s.form.unitPrice)).Some?
    && pd(Trim(s.form.unitPrice)).value >= 0.0
  }

  /** A price of exactly 0 passes the price check: the product is resolved,
      and the step ends neither with "no product" nor with "invalid price". */
  lemma ZeroPriceAccepted(s: Screen, t: Tables, pd: string -> Option<real>, pi: string -> Option<Int32>,
                          utcNow: string, localNow: string)
    requires s.current.None? && !IsBlank(s.form.name) && pd(Trim(s.form.unitPrice)) == Some(0.0)
    ensures ManualEntryAccepted(s, pd)
    ensures ResolveProduct(s, t, pd).Resolved?
    ensures SaleStep(s, t, pd, pi, utcNow, localNow).outcome !in {NoProduct, InvalidPrice}
  {
    TrimEmptyIffBlank(s.form.name);
    ManualEntryDispatch(s, t, pd);
  }

  /** An accepted manual entry goes by the trimmed barcode when there is
      one, and by a barcode-less insert otherwise. */
  lemma ManualEntryDispatch(s: Screen, t: Tables, pd: string -> Option<real>)
    requires ManualEntryAccepted(s, pd)
    ensures !IsBlank(s.form.barcode) ==>
      ResolveProduct(s, t, pd) == ResolveByBarcode(t, Trim(s.form.barcode), Trim(s.form.name), pd(Trim(s.form.unitPrice)).value)
    ensures IsBlank(s.form.barcode) ==>
      ResolveProduct(s, t, pd) == ResolveWithoutBarcode(t, Trim(s.form.name), pd(Trim(s.form.unitPrice)).value)
  {
    TrimmedBlankIffBlank(s.form.barcode);
    assert IsNullOrWhiteSpace(Some(Trim(s.form.barcode))) == IsBlank(s.form.barcode);
  }

  // ---------------------------------------------------------------------
  // Product resolution
  // ---------------------------------------------------------------------

  /** A barcode already in the catalog: its product is used, the typed name
      and price are ignored and nothing is inserted. */
  lemma ExistingBarcodeIsUsed(t: Tables, barcode: string, name: string, price: real, i: nat)
    requires ValidTables(t) && !IsBlank(barcode)
    requires i < |t.products| && t.products[i].barcode == Some(barcode)
    ensures var p := t.products[i];
      ResolveByBarcode(t, barcode, name, price) == Resolved(Some(Product(p.id, barcode, p.name, p.unitPrice)), t)
  {
    LookupFindsStoredRow(t.products, i, barcode);
  }

  /** A new barcode: one product row with that barcode, name and price is
      inserted, and the product read back under the barcode is that row. */
  lemma NewBarcodeIsInserted(t: Tables, barcode: string, name: string, price: real)
    requires ValidTables(t) && !IsBlank(barcode) && !HasBarcode(t.products, barcode)
    ensures ResolveByBarcode(t, barcode, name, price)
      == Resolved(Some(Product(t.productSeq + 1, barcode, name, price)),
                  t.(products := t.products + [ProductRow(t.productSeq + 1, Some(barcode), name, price)],
                     productSeq := t.productSeq + 1))
  {
    InsertOrIgnoreFirstWins(t, barcode, name, price, "", 0.0);
  }

  /** No barcode: a new NULL-barcode row is always inserted and the product
      read back is that row, with an empty barcode. */
  lemma BlankBarcodeIsInserted(t: Tables, name: string, price: real)
    requires ValidTables(t)
    ensures ResolveWithoutBarcode(t, name, price)
      == Resolved(Some(Product(t.productSeq + 1, "", name, price)),
                  t.(products := t.products + [ProductRow(t.productSeq + 1, None, name, price)],
                     productSeq := t.productSeq + 1))
  {
    FindByIdAppended(t.products, ProductRow(t.productSeq + 1, None, name, price));
  }

  /** Without a barcode there is no deduplication: entering the same name and
      price twice stores two products with different ids. */
  lemma BlankBarcodeNeverDeduplicates(t: Tables, name: string, price: real)
    requires ValidTables(t)
    ensures var first := ResolveWithoutBarcode(t, name, price);
      var second := ResolveWithoutBarcode(first.tables, name, price);
      && |second.tables.products| == |t.products| + 2
      && first.current.Some? && second.current.Some?
      && first.current.value.id != second.current.value.id
  {
    BlankBarcodeIsInserted(t, name, price);
    var first := ResolveWithoutBarcode(t, name, price);
    InsertKeepsInvariant(t, None, name, price);
    BlankBarcodeIsInserted(first.tables, name, price);
  }

  /** Under valid tables a product is always determined: the "Failed to
      determine product" branch is never taken; the tables stay valid and
      only grow. */
  lemma ResolveNeverLosesProduct(s: Screen, t: Tables, pd: string -> Option<real>)
    requires ValidTables(t)
    ensures ResolveProduct(s, t, pd).Resolved? ==>
      && ValidTables(ResolveProduct(s, t, pd).tables)
      && ResolveProduct(s, t, pd).current.Some?
      && ResolveProduct(s, t, pd).tables.sales == t.sales
      && ResolveProduct(s, t, pd).tables.saleSeq == t.saleSeq
      && |ResolveProduct(s, t, pd).tables.products| >= |t.products|
      && ResolveProduct(s, t, pd).tables.products[..|t.products|] == t.products
  {
    if s.current.None? && ManualEntryAccepted(s, pd) {
      var name, price := Trim(s.form.name), pd(Trim(s.form.unitPrice)).value;
      ManualEntryDispatch(s, t, pd);
      if IsBlank(s.form.barcode) {
        BlankBarcodeIsInserted(t, name, price);
        InsertKeepsInvariant(t, None, name, price);
      } else {
        var b := Trim(s.form.barcode);
        TrimmedBlankIffBlank(s.form.barcode);
        if HasBarcode(t.products, b) {
          var i :| 0 <= i < |t.products| && t.products[i].barcode == Some(b);
          ExistingBarcodeIsUsed(t, b, name, price, i);
        } else {
          NewBarcodeIsInserted(t, b, name, price);
          InsertKeepsInvariant(t, Some(b), name, price);
        }
      }
    }
  }

  // ---------------------------------------------------------------------
  // Recording the sale
  // ---------------------------------------------------------------------

  /** A quantity that is accepted is positive, and in integer mode it is the
      parsed `int`. */
  lemma AcceptedQuantityIsPositive(form: Form, pd: string -> Option<real>, pi: string -> Option<Int32>)
    ensures ParseQuantity(form, pd, pi).Some? ==> ParseQuantity(form, pd, pi).value > 0.0
    ensures !form.allowDecimal && ParseQuantity(form, pd, pi).Some? ==>
      pi(Trim(form.quantity)).Some? && ParseQuantity(form, pd, pi).value == pi(Trim(form.quantity)).value as int as real
    ensures form.allowDecimal && ParseQuantity(form, pd, pi).Some? ==> ParseQuantity(form, pd, pi) == pd(Trim(form.quantity))
  {
  }

  /** Every refusal records no sale and leaves `_sales` alone; the early
      ones (no name, bad price) write nothing at all. */
  lemma RefusalRecordsNoSale(s: Screen, t: Tables, pd: string -> Option<real>, pi: string -> Option<Int32>, utcNow: string, localNow: string)
    ensures var r := SaleStep(s, t, pd, pi, utcNow, localNow);
      r.outcome != Recorded ==>
        && r.tables.sales == t.sales && r.tables.saleSeq == t.saleSeq
        && r.screen.sales == s.sales && r.screen.form == s.form
    ensures var r := SaleStep(s, t, pd, pi, utcNow, localNow);
      (r.outcome == NoProduct || r.outcome == InvalidPrice) ==> r == Step(r.outcome, s, t)
  {
    match ResolveProduct(s, t, pd)
    case Rejected(_) =>
    case Resolved(current, t') =>
      assert t'.sales == t.sales && t'.saleSeq == t.saleSeq;
  }

  /** In decimal mode the quantity must parse as a decimal and be positive. */
  lemma DecimalQuantityRule(form: Form, pd: string -> Option<real>, pi: string -> Option<Int32>)
    requires form.allowDecimal
    ensures ParseQuantity(form, pd, pi).Some? <==> pd(Trim(form.quantity)).Some? && pd(Trim(form.quantity)).value > 0.0
  {
  }

  /** In integer mode the quantity must parse as an `int` and be positive; a
      decimal reading of the same text does not matter. */
  lemma IntegerQuantityRule(form: Form, pd: string -> Option<real>, pi: string -> Option<Int32>)
    requires !form.allowDecimal
    ensures ParseQuantity(form, pd, pi).Some? <==> pi(Trim(form.quantity)).Some? && pi(Trim(form.quantity)).value > 0
  {
  }

  /** With a product in hand, a refused quantity records no sale and changes
      nothing. */
  lemma InvalidQuantityRecordsNoSale(s: Screen, t: Tables, pd: string -> Option<real>, pi: string -> Option<Int32>, utcNow: string, localNow: string)
    requires s.current.Some? && ParseQuantity(s.form, pd, pi).None?
    ensures SaleStep(s, t, pd, pi, utcNow, localNow) == Step(InvalidQuantity, s, t)
  {
  }

  /** Resolving the product keeps the window consistent: the product it
      settles on is a stored one, the old rows stay in front, and Sales is
      untouched. */
  lemma ResolveKeepsConsistent(s: Screen, t: Tables, pd: string -> Option<real>)
    requires Consistent(s, t) && ResolveProduct(s, t, pd).Resolved?
    ensures var r := ResolveProduct(s, t, pd);
      && Consistent(s.(current := r.current), r.tables)
      && r.current.Some?
      && |r.tables.products| >= |t.products| && r.tables.products[..|t.products|] == t.products
      && r.tables.sales == t.sales
  {
    var r := ResolveProduct(s, t, pd);
    ResolveNeverLosesProduct(s, t, pd);
    if s.current.Some? {
      assert r.tables == t;
    } else {
      ResolvedProductIsStored(s, t, pd);
    }
  }

  /** With a product and an accepted quantity, `AddSale` appends one
      row for that product at its price with `Total = UnitPrice * Quantity`,
      the same sale heads `_sales`, and the product and every input are
      cleared. */
  lemma RecordSaleWritesOneRow(s: Screen, t: Tables, pd: string -> Option<real>, pi: string -> Option<Int32>, utcNow: string, localNow: string)
    requires ValidTables(t) && s.current.Some? && ParseQuantity(s.form, pd, pi).Some?
    ensures var r := RecordSale(s, t, pd, pi, utcNow, localNow);
      && r.outcome == Recorded
      && ValidTables(r.tables) && r.tables.products == t.products
      && |r.tables.sales| == |t.sales| + 1 && r.tables.sales[..|t.sales|] == t.sales
      && r.screen.current.None? && r.screen.form == ClearedForm
      && |r.screen.sales| == |s.sales| + 1 && r.screen.sales[1..] == s.sales
    ensures var r := RecordSale(s, t, pd, pi, utcNow, localNow);
      var row, e := r.tables.sales[|t.sales|], r.screen.sales[0];
      && e.name == s.current.value.name && e.unitPrice == s.current.value.unitPrice
      && e.quantity == ParseQuantity(s.form, pd, pi).value && e.total == LineTotal(e.unitPrice, e.quantity) && e.soldAt == localNow
      && row == SaleRow(row.id, Some(s.current.value.id), Some(e.quantity), Some(e.unitPrice), Some(e.total), Some(utcNow))
  {
    AddSaleAppendsOneRow(t, s.current.value.id, ParseQuantity(s.form, pd, pi).value, s.current.value.unitPrice,
                         LineTotal(s.current.value.unitPrice, ParseQuantity(s.form, pd, pi).value), utcNow);
  }

  /** A successful `AddCurrentSale` appends exactly one Sales row for the
      resolved product at its own stored price with `Total = UnitPrice *
      Quantity`, puts exactly one entry at the head of `_sales`, clears the
      current product and every input, and keeps the window consistent. */
  lemma RecordedSaleWritesOneRow(s: Screen, t: Tables, pd: string -> Option<real>, pi: string -> Option<Int32>, utcNow: string, localNow: string)
    requires Consistent(s, t)
    requires SaleStep(s, t, pd, pi, utcNow, localNow).outcome == Recorded
    ensures var r := SaleStep(s, t, pd, pi, utcNow, localNow);
      && ValidTables(r.tables)
      && |r.tables.sales| == |t.sales| + 1
      && r.tables.sales[..|t.sales|] == t.sales
      && |r.tables.products| >= |t.products| && r.tables.products[..|t.products|] == t.products
      && r.screen.current.None? && r.screen.form == ClearedForm
      && |r.screen.sales| == |s.sales| + 1 && r.screen.sales[1..] == s.sales
    ensures var r := SaleStep(s, t, pd, pi, utcNow, localNow);
      var row, e := r.tables.sales[|t.sales|], r.screen.sales[0];
      && row == SaleRow(row.id, Some(row.productId.value), Some(e.quantity), Some(e.unitPrice), Some(e.total), Some(utcNow))
      && e.total == LineTotal(e.unitPrice, e.quantity) && e.quantity > 0.0 && e.soldAt == localNow
      && exists i :: 0 <= i < |r.tables.products| && r.tables.products[i].id == row.productId.value
           && r.tables.products[i].unitPrice == e.unitPrice && r.tables.products[i].name == e.name
  {
    assert ResolveProduct(s, t, pd).Resolved?;
    ResolveKeepsConsistent(s, t, pd);
    assert SaleStep(s, t, pd, pi, utcNow, localNow)
      == RecordSale(s.(current := ResolveProduct(s, t, pd).current), ResolveProduct(s, t, pd).tables, pd, pi, utcNow, localNow);
    RecordSaleWritesOneRow(s.(current := ResolveProduct(s, t, pd).current), ResolveProduct(s, t, pd).tables, pd, pi, utcNow, localNow);
    AcceptedQuantityIsPositive(s.form, pd, pi);
  }

  /** A product the manual entry resolves is one of the stored products. */
  lemma ResolvedProductIsStored(s: Screen, t: Tables, pd: string -> Option<real>)
    requires ValidTables(t) && s.current.None?
    requires ResolveProduct(s, t, pd).Resolved?
    ensures ResolveProduct(s, t, pd).tables.products[..|t.products|] == t.products
    ensures ResolveProduct(s, t, pd).current.Some? ==> Stored(ResolveProduct(s, t, pd).tables.products, ResolveProduct(s, t, pd).current.value)
  {
    var r := ResolveProduct(s, t, pd);
    var ps := r.tables.products;
    assert ps[..|t.products|] == t.products;
    if r.current.Some? {
      var p := r.current.value;
      var b := Trim(s.form.barcode);
      if !IsNullOrWhiteSpace(Some(b)) {
        var i :| 0 <= i < |ps| && ps[i] == ProductRow(p.id, Some(b), p.name, p.unitPrice);
        assert ps[i].id == p.id;
      } else {
        var row := FindById(ps, r.tables.productSeq);
        var i :| 0 <= i < |ps| && ps[i] == row.value;
        assert ps[i].id == p.id;
      }
    }
  }

  /** Every step keeps the window consistent with the tables. */
  lemma SaleStepKeepsConsistent(s: Screen, t: Tables, pd: string -> Option<real>, pi: string -> Option<Int32>, utcNow: string, localNow: string)
    requires Consistent(s, t)
    ensures var r := SaleStep(s, t, pd, pi, utcNow, localNow); Consistent(r.screen, r.tables)
  {
    var r := SaleStep(s, t, pd, pi, utcNow, localNow);
    if r.outcome == Recorded {
      RecordedSaleWritesOneRow(s, t, pd, pi, utcNow, localNow);
    } else {
      match ResolveProduct(s, t, pd)
      case Rejected(_) =>
      case Resolved(current, t1) =>
        ResolveNeverLosesProduct(s, t, pd);
        if s.current.None? {
          ResolvedProductIsStored(s, t, pd);
        } else {
          assert t1 == t;
        }
    }
  }

  /** Scanning the seeded Apple barcode on a freshly seeded catalog makes
      Apple current and fills in its name and price. */
  lemma SeededAppleLookup(fmt: real -> string, s: Screen)
    ensures LookupScreen(s, WithSeed(Tables([], 0, [], 0)).products, "012345678905", fmt)
      == s.(current := Some(Product(1, "012345678905", "Apple", 0.50)), form := s.form.(name := "Apple", unitPrice := fmt(0.50)))
  {
    assert !IsBlank("012345678905") by { assert !IsWhiteSpace("012345678905"[0]); }
    InitializeKeepsInvariant(Tables([], 0, [], 0));
    LookupHit(s, WithSeed(Tables([], 0, [], 0)), "012345678905", fmt, 0);
  }

  /** Selling 3 of the current Apple in integer mode records one sale of
      total 1.50 at Apple's price. */
  lemma AppleSaleOfThree(pd: string -> Option<real>, pi: string -> Option<Int32>, price: string, utcNow: string, localNow: string)
    requires pi("3") == Some(3)
    ensures var t := WithSeed(Tables([], 0, [], 0));
      var s := Screen(Some(Product(1, "012345678905", "Apple", 0.50)), [], Form("012345678905", "Apple", price, "3", false));
      && SaleStep(s, t, pd, pi, utcNow, localNow).outcome == Recorded
      && SaleStep(s, t, pd, pi, utcNow, localNow).tables == WithSale(t, 1, 3.0, 0.50, 1.50, utcNow)
  {
    assert Trim("3") == "3" by {
      assert !IsWhiteSpace("3"[0]);
    }
    assert ParseQuantity(Form("012345678905", "Apple", price, "3", false), pd, pi) == Some(3.0);
  }

  /** Scanning the seeded Apple barcode and selling 3 of it records a total
      of 1.50, and the sale reads back first from the recent-sales query. */
  lemma AppleScenario(fmt: real -> string, pd: string -> Option<real>, pi: string -> Option<Int32>, utcNow: string, localNow: string)
    requires pi("3") == Some(3)
    ensures var t := WithSeed(Tables([], 0, [], 0));
      var s := LookupScreen(Screen(None, [], Form("012345678905", "", "", "3", false)), t.products, "012345678905", fmt);
      var r := SaleStep(s, t, pd, pi, utcNow, localNow);
      && s.current == Some(Product(1, "012345678905", "Apple", 0.50))
      && r.outcome == Recorded
      && RecentSales(r.tables.products, r.tables.sales) == [RecentSale("Apple", 0.50, 3.0, 1.50, utcNow)]
  {
    SeededAppleLookup(fmt, Screen(None, [], Form("012345678905", "", "", "3", false)));
    AppleSaleOfThree(pd, pi, fmt(0.50), utcNow, localNow);
    AppleSaleReadsBack(utcNow);
  }

  /** That sale is then the whole recent-sales list. */
  lemma AppleSaleReadsBack(utcNow: string)
    ensures var t := WithSale(WithSeed(Tables([], 0, [], 0)), 1, 3.0, 0.50, 1.50, utcNow);
      RecentSales(t.products, t.sales) == [RecentSale("Apple", 0.50, 3.0, 1.50, utcNow)]
  {
    RecordedSaleReadsBack(WithSeed(Tables([], 0, [], 0)), 0, 3.0, 1.50, utcNow);
    RecentSalesJoin(WithSale(WithSeed(Tables([], 0, [], 0)), 1, 3.0, 0.50, 1.50, utcNow).products,
                    WithSale(WithSeed(Tables([], 0, [], 0)), 1, 3.0, 0.50, 1.50, utcNow).sales);
  }

  // ---------------------------------------------------------------------
  // The window as an object
  // ---------------------------------------------------------------------

  /** `MainWindow` with its database. */
  class MainWindow {
    const db: Database
    var currentProduct: Option<Product>
    var sales: seq<SaleEntry>
    var barcodeText: string
    var nameText: string
    var unitPriceText: string
    var quantityText: string
    var allowDecimal: bool

    function View(): Screen
      reads this
    {
      Screen(currentProduct, sales, Form(barcodeText, nameText, unitPriceText, quantityText, allowDecimal))
    }

    /** The constructor (SaleTrack/MainWindow.xaml.cs:19-24): empty inputs, no
        product, no sales shown, and the database initialized. */
    constructor (db: Database, mirror: MirrorOutcome)
      requires db.Valid()
      modifies db
      ensures this.db == db && db.Valid()
      ensures View() == Screen(None, [], ClearedForm)
      ensures db.State() == WithSeed(old(db.State()))
    {
      this.db := db;
      currentProduct := None;
      sales := [];
      barcodeText, nameText, unitPriceText, quantityText := "", "", "", "";
      allowDecimal := false;
      new;
      db.Initialize(mirror);
    }

    /** `Lookup`: `formatPrice` stands for `ToString("0.##")`. */
    method Lookup(barcode: string, formatPrice: real -> string)
      modifies this
      ensures View() == LookupScreen(old(View()), db.products, barcode, formatPrice)
    {
      currentProduct := GetProductByBarcode(db.products, Some(barcode));
      if currentProduct.Some? {
        nameText := currentProduct.value.name;
        unitPriceText := formatPrice(currentProduct.value.unitPrice);
      } else {
        currentProduct := None;
        nameText := "";
        unitPriceText := "";
      }
    }

    /** `LookupButton_Click` and Enter in the barcode box
        (SaleTrack/MainWindow.xaml.cs:45-56): look up the trimmed text of the
        barcode box, which itself is left as typed. */
    method LookupTyped(formatPrice: real -> string)
      modifies this
      ensures View() == LookupScreen(old(View()), db.products, Trim(old(barcodeText)), formatPrice)
    {
      Lookup(Trim(barcodeText), formatPrice);
    }

    /** Lines 73-135 of `AddCurrentSale`: keep the current product, or
        validate the manual entry and find or insert its product. Only
        `_currentProduct` and the database change. */
    method ResolveCurrentProduct(parseDecimal: string -> Option<real>) returns (rejection: Option<Outcome>)
      requires db.Valid()
      modifies this, db
      ensures db.Valid()
      ensures View() == old(View()).(current := currentProduct)
      ensures rejection.Some? ==>
        && ResolveProduct(old(View()), old(db.State()), parseDecimal) == Rejected(rejection.value)
        && currentProduct == old(currentProduct) && db.State() == old(db.State())
      ensures rejection.None? ==> ResolveProduct(old(View()), old(db.State()), parseDecimal) == Resolved(currentProduct, db.State())
    {
      rejection := None;
      if currentProduct.None? {
        var name := Trim(nameText);
        if name == "" {
          return Some(NoProduct);
        }
        var price := parseDecimal(Trim(unitPriceText));
        if price.None? || price.value < 0.0 {
          return Some(InvalidPrice);
        }
        var barcode := Trim(barcodeText);
        if !IsNullOrWhiteSpace(Some(barcode)) {
          var existing := GetProductByBarcode(db.products, Some(barcode));
          if existing.Some? {
            currentProduct := existing;
          } else {
            db.InsertOrIgnore(barcode, name, price.value);
            currentProduct := GetProductByBarcode(db.products, Some(barcode));
          }
        } else {
          var rowid := db.InsertWithoutBarcode(name, price.value);
          var row := FindById(db.products, rowid);
          if row.Some? {
            currentProduct := Some(Product(row.value.id, "", row.value.name, row.value.unitPrice));
          }
        }
      }
    }

    /** `AddCurrentSale`; `mirror` is what the forward to the remote mirror
        made of the sale, which changes nothing here. */
    method AddCurrentSale(parseDecimal: string -> Option<real>, parseInt: string -> Option<Int32>,
                          utcNow: string, localNow: string, mirror: MirrorOutcome)
      returns (outcome: Outcome)
      requires db.Valid()
      modifies this, db
      ensures db.Valid()
      ensures Step(outcome, View(), db.State())
        == SaleStep(old(View()), old(db.State()), parseDecimal, parseInt, utcNow, localNow)
    {
      ghost var s, t := View(), db.State();
      var rejection := ResolveCurrentProduct(parseDecimal);
      if rejection.Some? {
        RejectionIsFinal(s, t, parseDecimal, parseInt, utcNow, localNow);
        return rejection.value;
      }
      ResolutionThenRecord(s, t, parseDecimal, parseInt, utcNow, localNow);

      if currentProduct.None? {
        return ProductUnresolved;
      }

      var qty: real;
      if allowDecimal {
        var q := parseDecimal(Trim(quantityText));
        if q.None? || q.value <= 0.0 {
          return InvalidQuantity;
        }
        qty := q.value;
      } else {
        var q := parseInt(Trim(quantityText));
        if q.None? || q.value <= 0 {
          return InvalidQuantity;
        }
        qty := q.value as int as real;
      }
      assert ParseQuantity(View().form, parseDecimal, parseInt) == Some(qty);

      var p := currentProduct.value;
      var total := LineTotal(p.unitPrice, qty);
      db.AddSale(p.id, qty, p.unitPrice, total, utcNow, mirror);
      sales := [SaleEntry(p.name, p.unitPrice, qty, total, localNow)] + sales;

      barcodeText, nameText, unitPriceText, quantityText := "", "", "", "";
      allowDecimal := false;
      currentProduct := None;
      outcome := Recorded;
    }
  }
}
