# SaleTrack sale recording, in Dafny

SaleTrack is a point-of-sale tool. It looks up products by barcode in a local
SQLite file, `saleTrack.db`, lets the operator type a product in by hand when
the lookup misses, and records each sale in a ledger. The ledger's newest 100 rows can be read
back joined with the catalog (`GetRecentSales`); the window itself lists the
sales of the session, which it keeps in memory. This project models the two files
that do this work:

- `data.dfy` (module `Data`) models `SaleTrack/Data/Database.cs`. The
  Products and Sales tables are sequences of rows kept in rowid order. Each
  table also has its AUTOINCREMENT counter, which is what `sqlite_sequence`
  holds. Every statement the application runs is a pure function from the
  old tables to the new ones: seed, `INSERT OR IGNORE`, plain insert and
  sale insert. The two queries are functions too: barcode lookup and the
  recent-sales join. The class `Database` holds the tables as fields. Its
  methods are proved to update them as those functions say, and to keep the
  table invariants. The invariants are the UNIQUE barcode constraint and
  increasing ids no larger than the counter.
- `window.dfy` (module `SaleWindow`) models `SaleTrack/MainWindow.xaml.cs`.
  The window's state is `_currentProduct`, `_sales`, the four text boxes and
  the "allow decimal" check box. `Lookup` and `AddCurrentSale` are written
  twice. Once as functions over that state and the tables (`LookupScreen`,
  `ResolveProduct`, `RecordSale`, `SaleStep`). Once as methods of the class
  `MainWindow`, which follow the C# statement by statement and are proved
  equal to the functions.
- `text.dfy` (module `Text`) models the .NET string handling these files
  rely on: `char.IsWhiteSpace`, `String.Trim()` and
  `string.IsNullOrWhiteSpace`. `wrappers.dfy` holds `Option`.

Prices, quantities and totals are exact `real`s. This is the model of C#
`decimal`. Inputs that come from outside become parameters:

- `decimal.TryParse` and `int.TryParse` are functions from the trimmed text
  to `Option`. `int.TryParse` yields a 32-bit `Int32`.
- `ToString("0.##")` is a function from the price to text.
- The two clocks are strings: `utcNow` for `SoldAt` and `localNow` for the
  on-screen entry.
- A `MirrorOutcome` stands for what became of the best-effort call into the
  remote MySQL mirror. The local state never reads it.

Details the model takes from the code:

- A price of exactly 0 is accepted. Line 84 refuses only `price < 0`
  (`ZeroPriceAccepted`).
- The UNIQUE constraint applies to every non-NULL barcode, not only to
  non-empty ones.
- A typed-in product without a barcode is stored with a NULL barcode. It is
  held in memory with `Barcode = ""` (line 132).
- The recent-sales limit is the fixed 100 of the query. It is not a
  parameter.
- An `INSERT OR IGNORE` that is ignored still advances the Products
  AUTOINCREMENT sequence. SQLite allocates the new rowid before it checks the
  UNIQUE constraint, so the next product gets an id one higher.
- A manual entry inserts its product before the quantity is checked. A sale
  that is then refused for its quantity leaves the new product in the
  catalog (`RefusalRecordsNoSale` says only Sales is untouched).

## Model

| member | source | states |
|---|---|---|
| Text.IsWhiteSpace | SaleTrack/MainWindow.xaml.cs:76 | the characters `char.IsWhiteSpace` accepts, which `Trim()` strips: the Unicode space separators (category Zs, U+00A0 among them), the line and paragraph separators, U+0009 to U+000D and U+0085 |
| Text.IsNullOrWhiteSpace | SaleTrack/MainWindow.xaml.cs:92 | `string.IsNullOrWhiteSpace`: null, or every character white space |
| Text.Trim | SaleTrack/MainWindow.xaml.cs:76 | `String.Trim()`: the text with its leading and trailing white space removed |
| Text.TrimIsInnerSlice | SaleTrack/MainWindow.xaml.cs:76 | `Trim()` returns a slice `s[i..j]` whose cut-off margins are all white space and which neither starts nor ends with white space |
| Text.TrimEmptyIffBlank | SaleTrack/MainWindow.xaml.cs:76-77 | the trimmed text is empty exactly when the text is all white space, so the `IsNullOrEmpty(name)` test refuses exactly the blank names |
| Text.TrimIdempotent | SaleTrack/MainWindow.xaml.cs:91-92 | trimming twice gives the same text as trimming once; a helper for `TrimmedBlankIffBlank`, where the trimmed barcode goes through `IsNullOrWhiteSpace` |
| Text.TrimmedBlankIffBlank | SaleTrack/MainWindow.xaml.cs:91-92 | `IsNullOrWhiteSpace(barcode.Trim())` holds exactly when the raw barcode text is blank |
| Data.UniqueBarcodes | SaleTrack/Data/Database.cs:19 | `Barcode TEXT UNIQUE`: no two rows share a non-NULL barcode (the empty text included); NULL barcodes may repeat |
| Data.ProductIdsIssued | SaleTrack/Data/Database.cs:18 | `Id INTEGER PRIMARY KEY AUTOINCREMENT` on Products: ids increase in rowid order, are at least 1 and never exceed the sequence value |
| Data.SaleIdsIssued | SaleTrack/Data/Database.cs:24 | the same AUTOINCREMENT scheme for Sales ids and their sequence value |
| Data.ValidTables | SaleTrack/Data/Database.cs:17-30 | the schema's constraints together: unique barcodes, and both id schemes |
| Data.SeedRows | SaleTrack/Data/Database.cs:40-43 | the three seed rows Apple 0.50, Banana 0.30 and Milk 1.20 with their barcodes, numbered after the sequence value |
| Data.WithSeed | SaleTrack/Data/Database.cs:33-45 | the tables after `Initialize`: the seed rows appended and the sequence raised by 3 when Products is empty, otherwise unchanged |
| Data.WithProduct | SaleTrack/MainWindow.xaml.cs:104-124 | the tables after a product insert: the sequence advances by one, and a row with the next id is appended unless its non-NULL barcode is already stored |
| Data.WithSale | SaleTrack/Data/Database.cs:82-88 | the tables after `AddSale`: one Sales row with the next id, the arguments and `SoldAt` appended, the sequence advanced |
| Data.RecentRows | SaleTrack/Data/Database.cs:104-107 | the Sales rows newest first, cut to the first 100 |
| Data.JoinRow | SaleTrack/Data/Database.cs:105-117 | one row of the left join: the product's name by id or "(unknown)", and each NULL number read as 0 and a NULL `SoldAt` as "" |
| Data.RecentSales | SaleTrack/Data/Database.cs:103-117 | the joined tuples of the recent rows, in their order |
| Data.FindRow | SaleTrack/Data/Database.cs:61-64 | the `WHERE Barcode = $b LIMIT 1` query returns a row exactly when some row stores that exact barcode, and the row it returns is stored under it |
| Data.GetProductByBarcode | SaleTrack/Data/Database.cs:55-75 | null or white-space input gives no product; otherwise a product is returned exactly when the barcode is stored, it carries that barcode, and its id, name and price are a stored row's |
| Data.FindById | SaleTrack/Data/Database.cs:105 | the join on `p.Id` finds a stored row with that id, or there is none with it |
| Data.Reversed | SaleTrack/Data/Database.cs:106 | `ORDER BY s.Id DESC` on a table in rowid order: the same length, element `k` is row `n-1-k` |
| Data.FindByIdAppended | SaleTrack/MainWindow.xaml.cs:121-130 | reading back `last_insert_rowid()` finds the row just inserted, since no earlier row has its id |
| Data.InitializeSeedsEmptyCatalog | SaleTrack/Data/Database.cs:33-45 | on an empty catalog the seed leaves exactly Apple 0.50, Banana 0.30 and Milk 1.20 under their barcodes; a non-empty catalog is unchanged; Sales is never touched |
| Data.InitializeIdempotent | SaleTrack/Data/Database.cs:33-45 | running the seed step twice is running it once |
| Data.InitializeKeepsInvariant | SaleTrack/Data/Database.cs:17-30 | seeding keeps the UNIQUE barcode constraint and the id scheme |
| Data.BlankBarcodeIsAbsent | SaleTrack/Data/Database.cs:57 | a null, empty or white-space barcode is absent whatever the catalog holds |
| Data.LookupFindsStoredRow | SaleTrack/Data/Database.cs:61-73 | under the UNIQUE constraint, a non-blank stored barcode finds exactly the row that stores it |
| Data.FindRowAppend | SaleTrack/Data/Database.cs:61 | rows added after the first match do not change the row `LIMIT 1` returns |
| Data.LookupSurvivesInsert | SaleTrack/MainWindow.xaml.cs:104-112 | a barcode that is found keeps returning the same product after any later product insert |
| Data.LookupSurvivesSale | SaleTrack/Data/Database.cs:77-88 | recording a sale never changes any barcode lookup |
| Data.InsertKeepsInvariant | SaleTrack/Data/Database.cs:17-22 | `INSERT OR IGNORE` and the NULL-barcode insert keep the UNIQUE barcode constraint and increasing ids |
| Data.NullBarcodeAlwaysInserts | SaleTrack/MainWindow.xaml.cs:118-124 | a NULL-barcode insert always appends one row, under an id above every earlier one |
| Data.InsertOrIgnoreFirstWins | SaleTrack/MainWindow.xaml.cs:104-112 | a second `INSERT OR IGNORE` under the same barcode leaves Products unchanged and only advances the sequence, so the lookup is unchanged; after the first, the lookup finds the barcode, and a new barcode returns the fresh id with the first name and price |
| Data.AddSaleAppendsOneRow | SaleTrack/Data/Database.cs:77-88 | the sale insert appends exactly one row carrying its arguments and `SoldAt`, under an id above every earlier one; Products is unchanged; the invariants hold |
| Data.RecentRowsAt | SaleTrack/Data/Database.cs:103-107 | the query returns `min(n, 100)` rows, and row `k` is the table's row `n-1-k` |
| Data.RecentRowsNewestFirst | SaleTrack/Data/Database.cs:106-107 | an empty ledger gives nothing, and the rows come back strictly newest first by id |
| Data.RecentRowsKeepNewest | SaleTrack/Data/Database.cs:106-107 | every sale the limit leaves out is older than every sale returned |
| Data.RecentSalesJoin | SaleTrack/Data/Database.cs:103-117 | the result has `min(n, 100)` tuples, and tuple `k` is the join of sale `n-1-k` |
| Data.JoinPlaceholders | SaleTrack/Data/Database.cs:111-117 | an unmatched or NULL product id reads "(unknown)", NULL numbers read 0 and a NULL `SoldAt` reads "" |
| Data.JoinFindsProduct | SaleTrack/Data/Database.cs:105 | with unique ids, a sale of a stored product shows that product's name |
| Data.RecordedSaleReadsBack | SaleTrack/Data/Database.cs:77-119 | a sale just recorded for a stored product is the first recent sale and reads back with that product's name and the recorded values |
| Data.Database.Initialize | SaleTrack/Data/Database.cs:12-53 | the new tables are the seeding function of the old ones; the invariants hold; the mirror outcome has no effect |
| Data.Database.InsertOrIgnore | SaleTrack/MainWindow.xaml.cs:104-111 | the tables become `WithProduct` of the old ones for that barcode: the sequence always advances and a row is added only for a new barcode; the invariants hold |
| Data.Database.InsertWithoutBarcode | SaleTrack/MainWindow.xaml.cs:118-124 | the tables become `WithProduct` of the old ones with a NULL barcode, and the returned rowid is the new counter value |
| Data.Database.AddSale | SaleTrack/Data/Database.cs:77-96 | the tables become `WithSale` of the old ones; the invariants hold; the mirror outcome has no effect |
| Data.Database.GetRecentSales | SaleTrack/Data/Database.cs:98-119 | the loop over the rows, newest first, returns exactly `RecentSales` of the tables |
| SaleWindow.LineTotal | SaleTrack/MainWindow.xaml.cs:163 | the line total, unit price times quantity |
| SaleWindow.LookupScreen | SaleTrack/MainWindow.xaml.cs:26-43 | the window after `Lookup`: on a hit the product is current and the name and price boxes show it, on a miss all three are cleared |
| SaleWindow.ResolveByBarcode | SaleTrack/MainWindow.xaml.cs:91-114 | the stored product under the barcode with the tables unchanged, or else the tables after `INSERT OR IGNORE` and the product then read back under the barcode |
| SaleWindow.ResolveWithoutBarcode | SaleTrack/MainWindow.xaml.cs:115-134 | the tables after the NULL-barcode insert, and the row `last_insert_rowid()` names, held with barcode "" |
| SaleWindow.ResolveProduct | SaleTrack/MainWindow.xaml.cs:73-135 | the current product if there is one; otherwise a refusal for a blank name or a bad price, or resolution by the trimmed barcode when it is not blank and without one when it is |
| SaleWindow.ParseQuantity | SaleTrack/MainWindow.xaml.cs:143-161 | the trimmed quantity parsed as a decimal when the box is checked and as an `int` when not, refused unless above 0 |
| SaleWindow.RecordSale | SaleTrack/MainWindow.xaml.cs:137-174 | "failed to determine product" without a product, "invalid quantity" for a refused quantity, otherwise one sale at `LineTotal` written to Sales and put at the head of `_sales`, with the product and inputs cleared |
| SaleWindow.SaleStep | SaleTrack/MainWindow.xaml.cs:71-175 | `AddCurrentSale`: product resolution; a refusal leaves window and tables as they were; otherwise the sale is recorded on the tables resolution left |
| SaleWindow.LookupHit | SaleTrack/MainWindow.xaml.cs:26-34 | a stored non-blank barcode makes its product current and fills the name and price boxes from it; nothing else changes |
| SaleWindow.LookupMiss | SaleTrack/MainWindow.xaml.cs:35-42 | a blank or unknown barcode clears the current product and the name and price boxes; nothing else changes |
| SaleWindow.LookupKeepsConsistent | SaleTrack/MainWindow.xaml.cs:26-43 | after a lookup, the current product, if any, is one of the stored products |
| SaleWindow.RejectionIsFinal | SaleTrack/MainWindow.xaml.cs:74-88 | a refused manual entry ends the step: no table and no window field changes |
| SaleWindow.ResolutionThenRecord | SaleTrack/MainWindow.xaml.cs:137-174 | once the product is settled, the step is the recording of the sale for it, on the tables as product resolution left them |
| SaleWindow.BlankNameWritesNothing | SaleTrack/MainWindow.xaml.cs:76-81 | with no current product and a blank name, the step says "no product" and changes nothing |
| SaleWindow.BadPriceWritesNothing | SaleTrack/MainWindow.xaml.cs:83-88 | with no current product, a name, and a price that does not parse or is negative, the step says "invalid price" and changes nothing |
| SaleWindow.ManualEntryAccepted | SaleTrack/MainWindow.xaml.cs:74-88 | the manual entry passes the checks: no current product, a trimmed name that is not empty, and a trimmed price that parses as a decimal of at least 0 |
| SaleWindow.ZeroPriceAccepted | SaleTrack/MainWindow.xaml.cs:76-88 | with a name, a price of exactly 0 passes the name and price checks: the product is resolved, and the step says neither "no product" nor "invalid price" |
| SaleWindow.ManualEntryDispatch | SaleTrack/MainWindow.xaml.cs:91-134 | an accepted entry goes by the trimmed barcode when the barcode text is not blank, and by a barcode-less insert when it is |
| SaleWindow.ExistingBarcodeIsUsed | SaleTrack/MainWindow.xaml.cs:95-99 | a barcode already stored gives its product, ignores the typed name and price, and inserts nothing |
| SaleWindow.NewBarcodeIsInserted | SaleTrack/MainWindow.xaml.cs:100-113 | a new barcode inserts one row with it and the typed name and price, and the product read back is that row |
| SaleWindow.BlankBarcodeIsInserted | SaleTrack/MainWindow.xaml.cs:115-134 | no barcode always inserts one NULL-barcode row, and the product read back is that row with barcode "" |
| SaleWindow.BlankBarcodeNeverDeduplicates | SaleTrack/MainWindow.xaml.cs:117-124 | the same name and price entered twice without a barcode give two rows and two different ids |
| SaleWindow.ResolveNeverLosesProduct | SaleTrack/MainWindow.xaml.cs:137-141 | under valid tables every resolution yields a product, so "Failed to determine product" cannot happen; the tables stay valid, only gain rows at the end, and Sales is untouched |
| SaleWindow.AcceptedQuantityIsPositive | SaleTrack/MainWindow.xaml.cs:143-161 | an accepted quantity is positive; in integer mode it is the parsed `int`; in decimal mode it is the parsed decimal |
| SaleWindow.RefusalRecordsNoSale | SaleTrack/MainWindow.xaml.cs:71-161 | every outcome but a recorded sale leaves Sales, `_sales` and the inputs unchanged; the name and price refusals change nothing at all |
| SaleWindow.DecimalQuantityRule | SaleTrack/MainWindow.xaml.cs:145-151 | in decimal mode a quantity is accepted exactly when it parses as a decimal above 0 |
| SaleWindow.IntegerQuantityRule | SaleTrack/MainWindow.xaml.cs:153-161 | in integer mode a quantity is accepted exactly when it parses as an `int` above 0 |
| SaleWindow.InvalidQuantityRecordsNoSale | SaleTrack/MainWindow.xaml.cs:143-161 | with a current product, a refused quantity says "invalid quantity" and changes nothing |
| SaleWindow.ResolveKeepsConsistent | SaleTrack/MainWindow.xaml.cs:73-135 | resolution keeps the window consistent: it settles on a stored product, keeps the old rows in front, and leaves Sales alone |
| SaleWindow.RecordSaleWritesOneRow | SaleTrack/MainWindow.xaml.cs:163-173 | with a product and an accepted quantity, one Sales row is appended for the product's id at its price with `Total = UnitPrice * qty`; the same entry heads `_sales`; the product and every input are cleared |
| SaleWindow.RecordedSaleWritesOneRow | SaleTrack/MainWindow.xaml.cs:163-174 | a recorded sale appends exactly one Sales row and one `_sales` entry, which agree on price, quantity and total; the total is price times quantity and the quantity is positive; the row's product is a stored product with that name and price; the inputs are cleared and the tables stay valid |
| SaleWindow.ResolvedProductIsStored | SaleTrack/MainWindow.xaml.cs:91-134 | a manual entry keeps the old rows in front, and the product it settles on is a stored row in id, name and price |
| SaleWindow.SaleStepKeepsConsistent | SaleTrack/MainWindow.xaml.cs:71-175 | every step, whatever its outcome, keeps the tables valid and the current product stored |
| SaleWindow.SeededAppleLookup | SaleTrack/MainWindow.xaml.cs:26-34 | scanning `012345678905` on the freshly seeded catalog makes Apple, id 1, at 0.50 current and fills its name and price |
| SaleWindow.AppleSaleOfThree | SaleTrack/MainWindow.xaml.cs:153-164 | selling 3 of the current Apple in integer mode records one sale with total 1.50 |
| SaleWindow.AppleSaleReadsBack | SaleTrack/Data/Database.cs:98-119 | that sale is then the whole recent-sales list: ("Apple", 0.50, 3, 1.50, its timestamp) |
| SaleWindow.AppleScenario | SaleTrack/MainWindow.xaml.cs:71-175 | scan Apple, sell 3: the sale is recorded and reads back as the only recent sale with total 1.50 |
| SaleWindow.MainWindow.constructor | SaleTrack/MainWindow.xaml.cs:19-24 | the window starts with no product, no sales and empty inputs, and the database is initialized |
| SaleWindow.MainWindow.Lookup | SaleTrack/MainWindow.xaml.cs:26-43 | the window becomes `LookupScreen` of the old window for that barcode |
| SaleWindow.MainWindow.LookupTyped | SaleTrack/MainWindow.xaml.cs:45-56 | the button and the Enter key look up the trimmed barcode text |
| SaleWindow.MainWindow.ResolveCurrentProduct | SaleTrack/MainWindow.xaml.cs:73-135 | the method gives the refusal or the product and tables that `ResolveProduct` gives; it changes only the current product and the database |
| SaleWindow.MainWindow.AddCurrentSale | SaleTrack/MainWindow.xaml.cs:71-175 | the outcome, the new window and the new tables are exactly `SaleStep` of the old ones, and the tables stay valid |

## Left out

- The remote MySQL mirror (`MySqlBackend.EnsureTables`, `MySqlBackend.ForwardSale`) is not part of this model. It is network I/O whose failures are swallowed. It appears only as a `MirrorOutcome` parameter that the local state ignores.
- Connections, the file name `saleTrack.db` and `CREATE TABLE IF NOT EXISTS` are not modelled. The tables are taken to exist: `Database.Open` starts from their current contents. A failing local store that raises an exception is not modelled.
- Products and Sales store prices in SQLite `REAL` (double) columns. The model keeps exact values, so the rounding of a decimal stored as a double and read back is not captured.
- C# `decimal` overflow and its 28-29 digit rounding in `UnitPrice * qty` are not modelled. Reals are unbounded and exact.
- Ids are unbounded integers. `reader.GetInt32` failing on an id above 2^31-1 is not modelled.
- Product names and prices are never NULL in the model. The application never writes NULL there, and `GetString` would throw on one.
- Culture-specific parsing in `decimal.TryParse` and `int.TryParse` is not modelled. Both are parameters. Only `int`'s 32-bit range is modelled, as `Int32`.
- `ToString("0.##")`, `DateTime.UtcNow.ToString("o")` and `DateTime.Now.ToString("g")` are not modelled. They are parameters.
- Message boxes are modelled only as the `Outcome` each path ends with. Keyboard focus, `InitializeComponent` and the data-grid binding are not modelled.
- The window's text boxes are taken to start empty and the check box unchecked.
- `GetRecentSales` is a lazy iterator over an open reader. It is modelled as one eager snapshot.
- Other processes writing the same database file, and concurrency in general, are not modelled.
