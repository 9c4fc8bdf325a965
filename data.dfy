/** The local SQLite store `saleTrack.db` (SaleTrack/Data/Database.cs) as two
    tables of rows.

      Products(Id INTEGER PRIMARY KEY AUTOINCREMENT, Barcode TEXT UNIQUE, Name TEXT, UnitPrice REAL)
      Sales(Id INTEGER PRIMARY KEY AUTOINCREMENT, ProductId INTEGER, Quantity REAL,
            UnitPrice REAL, Total REAL, SoldAt TEXT)

    Each table is a sequence of rows in rowid order together with the value
    AUTOINCREMENT keeps in `sqlite_sequence` (the largest id ever handed out).
    Prices, quantities and totals are exact `real`s, as C# `decimal` is. */
module Data {
  import opened Wrappers
  import opened Text

  /** A row of Products. `barcode == None` is a NULL barcode. */
  datatype ProductRow = ProductRow(id: int, barcode: Option<string>, name: string, unitPrice: real)

  /** A row of Sales. Every column but Id is nullable in the schema. */
  datatype SaleRow = SaleRow(
    id: int,
    productId: Option<int>,
    quantity: Option<real>,
    unitPrice: Option<real>,
    total: Option<real>,
    soldAt: Option<string>)

  /** `SaleTrack.Models.Product`, the object the application holds in memory. */
  datatype Product = Product(id: int, barcode: string, name: string, unitPrice: real)

  /** One tuple yielded by `GetRecentSales`. */
  datatype RecentSale = RecentSale(name: string, unitPrice: real, quantity: real, total: real, soldAt: string)

  /** What became of the best-effort call into the remote MySQL mirror. The
      local store never looks at it. */
  datatype MirrorOutcome = MirrorDisabled | MirrorWritten | MirrorFailed

  /** The whole database: both tables and their AUTOINCREMENT counters. */
  datatype Tables = Tables(products: seq<ProductRow>, productSeq: nat, sales: seq<SaleRow>, saleSeq: nat)

  /** `LIMIT 100` of the recent-sales query. */
  const RecentLimit: nat := 100

  /** Name shown for a sale whose product cannot be joined. */
  const UnknownName: string := "(unknown)"

  function Min(a: nat, b: nat): nat { if a <= b then a else b }

  // ---------------------------------------------------------------------
  // Table invariants
  // ---------------------------------------------------------------------

  /** The `UNIQUE` constraint on Barcode: no two rows share a non-NULL
      barcode; NULL barcodes may repeat. */
  predicate UniqueBarcodes(ps: seq<ProductRow>)
  {
    forall i, j :: 0 <= i < j < |ps| && ps[i].barcode.Some? ==> ps[i].barcode != ps[j].barcode
  }

  /** Product ids come from AUTOINCREMENT: increasing in rowid order and
      never above the table's sequence value. */
  predicate ProductIdsIssued(ps: seq<ProductRow>, last: nat)
  {
    && (forall i, j :: 0 <= i < j < |ps| ==> ps[i].id < ps[j].id)
    && (forall i :: 0 <= i < |ps| ==> 1 <= ps[i].id <= last)
  }

  /** Sale ids come from AUTOINCREMENT in the same way. */
  predicate SaleIdsIssued(ss: seq<SaleRow>, last: nat)
  {
    && (forall i, j :: 0 <= i < j < |ss| ==> ss[i].id < ss[j].id)
    && (forall i :: 0 <= i < |ss| ==> 1 <= ss[i].id <= last)
  }

  predicate ValidTables(t: Tables)
  {
    && UniqueBarcodes(t.products)
    && ProductIdsIssued(t.products, t.productSeq)
    && SaleIdsIssued(t.sales, t.saleSeq)
  }

  // ---------------------------------------------------------------------
  // Queries
  // ---------------------------------------------------------------------

  /** Some row stores barcode `b`. */
  predicate HasBarcode(ps: seq<ProductRow>, b: string)
  {
    exists i :: 0 <= i < |ps| && ps[i].barcode == Some(b)
  }

  /** The index of the first row at or after `i` whose barcode is exactly
      `b`, or `|ps|` when there is none: the scan of the barcode lookup. */
  function BarcodeIndex(ps: seq<ProductRow>, b: string, i: nat): (k: nat)
    requires i <= |ps|
    ensures i <= k <= |ps|
    ensures forall j :: i <= j < k ==> ps[j].barcode != Some(b)
    ensures k < |ps| ==> ps[k].barcode == Some(b)
    decreases |ps| - i
  {
    if i == |ps| || ps[i].barcode == Some(b) then i else BarcodeIndex(ps, b, i + 1)
  }

  /** `SELECT ... FROM Products WHERE Barcode = $b LIMIT 1`: the first row, in
      rowid order, whose barcode equals `b` exactly. */
  function FindRow(ps: seq<ProductRow>, b: string): (r: Option<ProductRow>)
    ensures r.Some? <==> HasBarcode(ps, b)
    ensures r.Some? ==> r.value in ps && r.value.barcode == Some(b)
  {
    var k := BarcodeIndex(ps, b, 0);
    if k < |ps| then Some(ps[k]) else None
  }

  /** `GetProductByBarcode` (SaleTrack/Data/Database.cs:55-75): a null, empty
      or white-space barcode is absent without a query; otherwise the row
      stored under exactly that barcode, read into a `Product`. */
  function GetProductByBarcode(ps: seq<ProductRow>, barcode: Option<string>): (r: Option<Product>)
    ensures IsNullOrWhiteSpace(barcode) ==> r.None?
    ensures !IsNullOrWhiteSpace(barcode) ==> (r.Some? <==> HasBarcode(ps, barcode.value))
    ensures r.Some? ==> r.value.barcode == barcode.value
    ensures r.Some? ==> ProductRow(r.value.id, barcode, r.value.name, r.value.unitPrice) in ps
  {
    if IsNullOrWhiteSpace(barcode) then None
    else
      match FindRow(ps, barcode.value)
      case None => None
      case Some(row) => Some(Product(row.id, barcode.value, row.name, row.unitPrice))
  }

  /** The index of the first row at or after `i` whose Id is `id`, or `|ps|`
      when there is none. */
  function IdIndex(ps: seq<ProductRow>, id: int, i: nat): (k: nat)
    requires i <= |ps|
    ensures i <= k <= |ps|
    ensures forall j :: i <= j < k ==> ps[j].id != id
    ensures k < |ps| ==> ps[k].id == id
    decreases |ps| - i
  {
    if i == |ps| || ps[i].id == id then i else IdIndex(ps, id, i + 1)
  }

  /** The row whose Id is `id`, if any (`WHERE rowid = ...` and the
      `p.Id = s.ProductId` join condition). */
  function FindById(ps: seq<ProductRow>, id: int): (r: Option<ProductRow>)
    ensures r.Some? ==> r.value in ps && r.value.id == id
    ensures r.None? ==> forall i :: 0 <= i < |ps| ==> ps[i].id != id
  {
    var k := IdIndex(ps, id, 0);
    if k < |ps| then Some(ps[k]) else None
  }

  /** A row appended under an id no earlier row has is the one found by
      that id (`last_insert_rowid()` after an insert). */
  lemma FindByIdAppended(ps: seq<ProductRow>, row: ProductRow)
    requires forall i :: 0 <= i < |ps| ==> ps[i].id != row.id
    ensures FindById(ps + [row], row.id) == Some(row)
  {
    var qs := ps + [row];
    var k := IdIndex(qs, row.id, 0);
    assert forall j :: 0 <= j < |ps| ==> qs[j] == ps[j];
    assert qs[|ps|] == row;
  }

  /** The sales, last inserted first. */
  function Reversed(ss: seq<SaleRow>): (r: seq<SaleRow>)
    ensures |r| == |ss|
    ensures forall k :: 0 <= k < |r| ==> r[k] == ss[|ss| - 1 - k]
  {
    if ss == [] then [] else [ss[|ss| - 1]] + Reversed(ss[..|ss| - 1])
  }

  /** `FROM Sales s ORDER BY s.Id DESC LIMIT 100`, on a table kept in rowid
      order. */
  function RecentRows(ss: seq<SaleRow>): seq<SaleRow>
  {
    Reversed(ss)[..Min(|ss|, RecentLimit)]
  }

  /** One result tuple: `LEFT JOIN Products p ON p.Id = s.ProductId`, with
      "(unknown)" for an unmatched product, 0 for a NULL number and "" for
      a NULL SoldAt (SaleTrack/Data/Database.cs:111-117). */
  function JoinRow(ps: seq<ProductRow>, s: SaleRow): RecentSale
  {
    var product := if s.productId.Some? then FindById(ps, s.productId.value) else None;
    RecentSale(
      if product.Some? then product.value.name else UnknownName,
      s.unitPrice.GetOr(0.0),
      s.quantity.GetOr(0.0),
      s.total.GetOr(0.0),
      s.soldAt.GetOr(""))
  }

  /** `GetRecentSales` (SaleTrack/Data/Database.cs:98-119) as a value. */
  function RecentSales(ps: seq<ProductRow>, ss: seq<SaleRow>): seq<RecentSale>
  {
    var rows := RecentRows(ss);
    seq(|rows|, k requires 0 <= k < |rows| => JoinRow(ps, rows[k]))
  }

  // ---------------------------------------------------------------------
  // Updates, as functions from the old tables to the new ones
  // ---------------------------------------------------------------------

  /** The three rows of the seed `INSERT`, numbered after `last`. */
  function SeedRows(last: nat): seq<ProductRow>
  {
    [ ProductRow(last + 1, Some("012345678905"), "Apple", 0.50),
      ProductRow(last + 2, Some("036000291452"), "Banana", 0.30),
      ProductRow(last + 3, Some("049000042044"), "Milk", 1.20) ]
  }

  /** The effect of `Initialize` on the tables: seed when Products is empty. */
  function WithSeed(t: Tables): Tables
  {
    if |t.products| == 0 then t.(products := SeedRows(t.productSeq), productSeq := t.productSeq + 3)
    else t
  }

  /** `INSERT OR IGNORE INTO Products (Barcode, Name, UnitPrice)`. AUTOINCREMENT
      hands out the next rowid before the UNIQUE check runs, so a row that
      would repeat a non-NULL barcode is skipped but still uses up that id. A
      plain `INSERT` with a NULL barcode never conflicts, so it is the same. */
  function WithProduct(t: Tables, barcode: Option<string>, name: string, price: real): Tables
  {
    if barcode.Some? && HasBarcode(t.products, barcode.value) then t.(productSeq := t.productSeq + 1)
    else t.(products := t.products + [ProductRow(t.productSeq + 1, barcode, name, price)],
            productSeq := t.productSeq + 1)
  }

  /** The `INSERT INTO Sales` of `AddSale`. */
  function WithSale(t: Tables, productId: int, quantity: real, unitPrice: real, total: real, soldAt: string): Tables
  {
    t.(sales := t.sales + [SaleRow(t.saleSeq + 1, Some(productId), Some(quantity), Some(unitPrice), Some(total), Some(soldAt))],
       saleSeq := t.saleSeq + 1)
  }

  // ---------------------------------------------------------------------
  // Initialize
  // ---------------------------------------------------------------------

  /** On an empty Products table `Initialize` leaves exactly the three seed
      products; on a non-empty one it changes nothing; Sales is untouched. */
  lemma InitializeSeedsEmptyCatalog(t: Tables)
    ensures |t.products| == 0 ==>
      && |WithSeed(t).products| == 3
      && WithSeed(t).products[0] == ProductRow(t.productSeq + 1, Some("012345678905"), "Apple", 0.50)
      && WithSeed(t).products[1] == ProductRow(t.productSeq + 2, Some("036000291452"), "Banana", 0.30)
      && WithSeed(t).products[2] == ProductRow(t.productSeq + 3, Some("049000042044"), "Milk", 1.20)
    ensures |t.products| > 0 ==> WithSeed(t) == t
    ensures WithSeed(t).sales == t.sales && WithSeed(t).saleSeq == t.saleSeq
  {
  }

  /** Calling `Initialize` twice is calling it once. */
  lemma InitializeIdempotent(t: Tables)
    ensures WithSeed(WithSeed(t)) == WithSeed(t)
  {
  }

  /** Seeding keeps the table invariants: the seed barcodes are distinct. */
  lemma InitializeKeepsInvariant(t: Tables)
    requires ValidTables(t)
    ensures ValidTables(WithSeed(t))
  {
  }

  // ---------------------------------------------------------------------
  // Barcode lookup and uniqueness
  // ---------------------------------------------------------------------

  /** A blank or null barcode is absent whatever the catalog holds. */
  lemma BlankBarcodeIsAbsent(ps: seq<ProductRow>, barcode: Option<string>)
    requires barcode.None? || Trim(barcode.value) == ""
    ensures GetProductByBarcode(ps, barcode).None?
  {
    if barcode.Some? {
      TrimEmptyIffBlank(barcode.value);
    }
  }

  /** Under the UNIQUE constraint a non-blank barcode finds the one row that
      stores it. */
  lemma LookupFindsStoredRow(ps: seq<ProductRow>, i: nat, b: string)
    requires UniqueBarcodes(ps)
    requires i < |ps| && ps[i].barcode == Some(b) && !IsBlank(b)
    ensures GetProductByBarcode(ps, Some(b)) == Some(Product(ps[i].id, b, ps[i].name, ps[i].unitPrice))
  {
    var k := BarcodeIndex(ps, b, 0);
    assert !(k < i);
    assert !(i < k);
  }

  /** Rows appended after the first match do not change which row is found. */
  lemma FindRowAppend(ps: seq<ProductRow>, extra: ProductRow, b: string)
    requires HasBarcode(ps, b)
    ensures FindRow(ps + [extra], b) == FindRow(ps, b)
  {
    var qs := ps + [extra];
    var k, m := BarcodeIndex(ps, b, 0), BarcodeIndex(qs, b, 0);
    assert k < |ps|;
    assert forall j :: 0 <= j < |ps| ==> qs[j] == ps[j];
  }

  /** Once a barcode is found, a later insert leaves the lookup returning the
      same product. */
  lemma LookupSurvivesInsert(t: Tables, b: Option<string>, barcode: Option<string>, name: string, price: real)
    requires GetProductByBarcode(t.products, b).Some?
    ensures GetProductByBarcode(WithProduct(t, barcode, name, price).products, b) == GetProductByBarcode(t.products, b)
  {
    var ps' := WithProduct(t, barcode, name, price).products;
    if ps' != t.products {
      assert HasBarcode(t.products, b.value);
      assert ps' == t.products + [ProductRow(t.productSeq + 1, barcode, name, price)];
      FindRowAppend(t.products, ProductRow(t.productSeq + 1, barcode, name, price), b.value);
      assert FindRow(ps', b.value) == FindRow(t.products, b.value);
    }
  }

  /** Recording a sale never changes what a barcode lookup returns. */
  lemma LookupSurvivesSale(t: Tables, b: Option<string>, productId: int, quantity: real, unitPrice: real, total: real, soldAt: string)
    ensures GetProductByBarcode(WithSale(t, productId, quantity, unitPrice, total, soldAt).products, b) == GetProductByBarcode(t.products, b)
  {
  }

  /** `INSERT OR IGNORE` keeps the UNIQUE constraint and the id scheme; any
      number of NULL-barcode rows may coexist. */
  lemma InsertKeepsInvariant(t: Tables, barcode: Option<string>, name: string, price: real)
    requires ValidTables(t)
    ensures ValidTables(WithProduct(t, barcode, name, price))
  {
    var t' := WithProduct(t, barcode, name, price);
    if t'.products != t.products {
      var ps := t'.products;
      forall i, j | 0 <= i < j < |ps| && ps[i].barcode.Some? ensures ps[i].barcode != ps[j].barcode {
        if j == |ps| - 1 {
          assert barcode.Some? ==> t.products[i].barcode != Some(barcode.value);
        }
      }
    }
  }

  /** A NULL barcode always adds a new row with a fresh id, however many rows
      with the same name and price exist. */
  lemma NullBarcodeAlwaysInserts(t: Tables, name: string, price: real)
    requires ValidTables(t)
    ensures WithProduct(t, None, name, price).products == t.products + [ProductRow(t.productSeq + 1, None, name, price)]
    ensures forall i :: 0 <= i < |t.products| ==> t.products[i].id < t.productSeq + 1
  {
  }

  /** First write wins: a second insert under a barcode leaves Products as the
      first one left it (only the sequence moves on), and the lookup keeps
      returning the first name and price. */
  lemma InsertOrIgnoreFirstWins(t: Tables, b: string, name1: string, price1: real, name2: string, price2: real)
    requires ValidTables(t) && !IsBlank(b)
    ensures var t1 := WithProduct(t, Some(b), name1, price1);
      && WithProduct(t1, Some(b), name2, price2) == t1.(productSeq := t1.productSeq + 1)
      && GetProductByBarcode(WithProduct(t1, Some(b), name2, price2).products, Some(b))
           == GetProductByBarcode(t1.products, Some(b))
      && GetProductByBarcode(t1.products, Some(b)).Some?
      && (!HasBarcode(t.products, b) ==>
            GetProductByBarcode(t1.products, Some(b)) == Some(Product(t.productSeq + 1, b, name1, price1)))
  {
    var t1 := WithProduct(t, Some(b), name1, price1);
    InsertKeepsInvariant(t, Some(b), name1, price1);
    if !HasBarcode(t.products, b) {
      var i := |t1.products| - 1;
      assert t1.products[i].barcode == Some(b);
      LookupFindsStoredRow(t1.products, i, b);
    }
  }

  // ---------------------------------------------------------------------
  // AddSale and the ledger
  // ---------------------------------------------------------------------

  /** `AddSale` appends exactly one row carrying its arguments under an id
      larger than every earlier one, and leaves Products alone. */
  lemma AddSaleAppendsOneRow(t: Tables, productId: int, quantity: real, unitPrice: real, total: real, soldAt: string)
    requires ValidTables(t)
    ensures var t' := WithSale(t, productId, quantity, unitPrice, total, soldAt);
      && ValidTables(t')
      && t'.products == t.products
      && |t'.sales| == |t.sales| + 1
      && t'.sales[..|t.sales|] == t.sales
      && t'.sales[|t.sales|] == SaleRow(t'.sales[|t.sales|].id, Some(productId), Some(quantity), Some(unitPrice), Some(total), Some(soldAt))
      && forall i :: 0 <= i < |t.sales| ==> t.sales[i].id < t'.sales[|t.sales|].id
  {
    var t' := WithSale(t, productId, quantity, unitPrice, total, soldAt);
    assert t'.sales[..|t.sales|] == t.sales;
  }

  /** The recent rows are the last `Min(|ss|, 100)` rows of the table, last
      first. */
  lemma RecentRowsAt(ss: seq<SaleRow>)
    ensures |RecentRows(ss)| == Min(|ss|, RecentLimit)
    ensures forall k :: 0 <= k < |RecentRows(ss)| ==> RecentRows(ss)[k] == ss[|ss| - 1 - k]
  {
  }

  /** The recent-sales query on a ledger in id order returns its rows
      strictly newest first by id; an empty ledger gives nothing. */
  lemma RecentRowsNewestFirst(ss: seq<SaleRow>)
    requires forall i, j :: 0 <= i < j < |ss| ==> ss[i].id < ss[j].id
    ensures |ss| == 0 ==> RecentRows(ss) == []
    ensures forall k, l :: 0 <= k < l < |RecentRows(ss)| ==> RecentRows(ss)[k].id > RecentRows(ss)[l].id
  {
    var r, n := RecentRows(ss), |ss|;
    RecentRowsAt(ss);
    forall k, l | 0 <= k < l < |r| ensures r[k].id > r[l].id {
      assert r[k] == ss[n - 1 - k] && r[l] == ss[n - 1 - l];
    }
  }

  /** The recent-sales query keeps the newest sales: every sale it leaves out
      is older than every sale it returns. */
  lemma RecentRowsKeepNewest(ss: seq<SaleRow>)
    requires forall i, j :: 0 <= i < j < |ss| ==> ss[i].id < ss[j].id
    ensures forall i, k :: 0 <= i < |ss| - |RecentRows(ss)| && 0 <= k < |RecentRows(ss)|
              ==> ss[i].id < RecentRows(ss)[k].id
  {
    var r, n := RecentRows(ss), |ss|;
    RecentRowsAt(ss);
    forall i, k | 0 <= i < n - |r| && 0 <= k < |r| ensures ss[i].id < r[k].id {
      assert r[k] == ss[n - 1 - k];
    }
  }

  /** The joined tuples line up with the recent rows. */
  lemma RecentSalesJoin(ps: seq<ProductRow>, ss: seq<SaleRow>)
    ensures |RecentSales(ps, ss)| == Min(|ss|, RecentLimit)
    ensures forall k :: 0 <= k < |RecentSales(ps, ss)| ==> RecentSales(ps, ss)[k] == JoinRow(ps, ss[|ss| - 1 - k])
  {
  }

  /** The placeholders of the left join: an unmatched or NULL product id reads
      "(unknown)", NULL numbers read 0 and a NULL SoldAt reads "". */
  lemma JoinPlaceholders(ps: seq<ProductRow>, s: SaleRow)
    ensures (s.productId.None? || forall i :: 0 <= i < |ps| ==> ps[i].id != s.productId.value) ==> JoinRow(ps, s).name == UnknownName
    ensures s.unitPrice.None? ==> JoinRow(ps, s).unitPrice == 0.0
    ensures s.quantity.None? ==> JoinRow(ps, s).quantity == 0.0
    ensures s.total.None? ==> JoinRow(ps, s).total == 0.0
    ensures s.soldAt.None? ==> JoinRow(ps, s).soldAt == ""
  {
    if s.productId.Some? && FindById(ps, s.productId.value).Some? {
      assert FindById(ps, s.productId.value).value in ps;
    }
  }

  /** Unique ids make the join exact: a sale for a stored product shows that
      product's name. */
  lemma JoinFindsProduct(ps: seq<ProductRow>, i: nat, s: SaleRow)
    requires forall a, b :: 0 <= a < b < |ps| ==> ps[a].id < ps[b].id
    requires i < |ps| && s.productId == Some(ps[i].id)
    ensures JoinRow(ps, s).name == ps[i].name
  {
    var r := FindById(ps, ps[i].id);
    var k :| 0 <= k < |ps| && ps[k] == r.value;
    assert !(k < i) && !(i < k);
  }

  /** A sale just recorded against a stored product is the first recent sale
      and reads back exactly as written. */
  lemma RecordedSaleReadsBack(t: Tables, i: nat, quantity: real, total: real, soldAt: string)
    requires ValidTables(t) && i < |t.products|
    ensures var t' := WithSale(t, t.products[i].id, quantity, t.products[i].unitPrice, total, soldAt);
      RecentSales(t'.products, t'.sales)[0] == RecentSale(t.products[i].name, t.products[i].unitPrice, quantity, total, soldAt)
  {
    var t' := WithSale(t, t.products[i].id, quantity, t.products[i].unitPrice, total, soldAt);
    RecentSalesJoin(t'.products, t'.sales);
    JoinFindsProduct(t.products, i, t'.sales[|t'.sales| - 1]);
  }

  // ---------------------------------------------------------------------
  // The store as an object
  // ---------------------------------------------------------------------

  /** The static class `Database`: the tables of `saleTrack.db`. */
  class Database {
    var products: seq<ProductRow>
    var productSeq: nat
    var sales: seq<SaleRow>
    var saleSeq: nat

    function State(): Tables
      reads this
    {
      Tables(products, productSeq, sales, saleSeq)
    }

    ghost predicate Valid()
      reads this
    {
      ValidTables(State())
    }

    /** Opens the database file with whatever it already holds. */
    constructor Open(existing: Tables)
      requires ValidTables(existing)
      ensures Valid() && State() == existing
    {
      products, productSeq := existing.products, existing.productSeq;
      sales, saleSeq := existing.sales, existing.saleSeq;
    }

    /** `Initialize` (SaleTrack/Data/Database.cs:12-53): the tables already
        exist in this model; seed when Products is empty, then try the mirror's
        schema bootstrap, whose `mirror` outcome is swallowed. */
    method Initialize(mirror: MirrorOutcome)
      requires Valid()
      modifies this
      ensures Valid()
      ensures State() == WithSeed(old(State()))
    {
      var count := |products|;
      if count == 0 {
        products := products + SeedRows(productSeq);
        productSeq := productSeq + 3;
      }
      InitializeKeepsInvariant(old(State()));
    }

    /** `INSERT OR IGNORE INTO Products` with a barcode
        (SaleTrack/MainWindow.xaml.cs:104-111). */
    method InsertOrIgnore(barcode: string, name: string, price: real)
      requires Valid()
      modifies this
      ensures Valid()
      ensures State() == WithProduct(old(State()), Some(barcode), name, price)
    {
      InsertKeepsInvariant(State(), Some(barcode), name, price);
      productSeq := productSeq + 1;
      if FindRow(products, barcode).None? {
        products := products + [ProductRow(productSeq, Some(barcode), name, price)];
      }
    }

    /** `INSERT INTO Products ... VALUES (NULL, $n, $u)`, returning
        `last_insert_rowid()` (SaleTrack/MainWindow.xaml.cs:118-128). */
    method InsertWithoutBarcode(name: string, price: real) returns (rowid: int)
      requires Valid()
      modifies this
      ensures Valid()
      ensures State() == WithProduct(old(State()), None, name, price)
      ensures rowid == productSeq
    {
      InsertKeepsInvariant(State(), None, name, price);
      products := products + [ProductRow(productSeq + 1, None, name, price)];
      productSeq := productSeq + 1;
      rowid := productSeq;
    }

    /** `AddSale` (SaleTrack/Data/Database.cs:77-96): one row into Sales, then
        the forward to the mirror, whose `mirror` outcome is swallowed. */
    method AddSale(productId: int, quantity: real, unitPrice: real, total: real, soldAt: string, mirror: MirrorOutcome)
      requires Valid()
      modifies this
      ensures Valid()
      ensures State() == WithSale(old(State()), productId, quantity, unitPrice, total, soldAt)
    {
      AddSaleAppendsOneRow(State(), productId, quantity, unitPrice, total, soldAt);
      sales := sales + [SaleRow(saleSeq + 1, Some(productId), Some(quantity), Some(unitPrice), Some(total), Some(soldAt))];
      saleSeq := saleSeq + 1;
    }

    /** `GetRecentSales` (SaleTrack/Data/Database.cs:98-119): reads the rows
        newest first until the ledger or the limit runs out. */
    method GetRecentSales() returns (result: seq<RecentSale>)
      ensures result == RecentSales(products, sales)
    {
      result := [];
      var i := |sales|;
      while 0 < i && |result| < RecentLimit
        invariant 0 <= i <= |sales|
        invariant |result| == |sales| - i <= RecentLimit
        invariant forall k :: 0 <= k < |result| ==> result[k] == JoinRow(products, sales[|sales| - 1 - k])
      {
        i := i - 1;
        result := result + [JoinRow(products, sales[i])];
      }
      RecentSalesJoin(products, sales);
    }
  }
}
