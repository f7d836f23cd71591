/**
 * The product window of healthcare_manager.py: three input fields (name, price, quantity),
 * a four-column table (ID, name, price, quantity) filled from the MyProd table of the
 * database, buttons for add, update, delete, search and export, and two labels holding
 * the quantity and amount totals of the selected rows.
 *
 * The database is a sequence of products kept by the window itself; the SQL statements
 * become the sequence operations `Inserted`, `Revised`, `Deleted` and `Select`. Message
 * boxes become the `notice` field. The row the table marks as current, the selected rows,
 * the answer to the delete question and the outcome of saving the workbook are
 * parameters of the methods that read them.
 */
module ProductManager {
  import opened Wrappers
  import opened Text

  /** One row of MyProd. */
  datatype Product = Product(id: int, name: string, price: int, qty: int)

  /** The three input fields once they have passed validation. */
  datatype Entry = Entry(name: string, price: int, qty: int)

  /** The message boxes the window shows, one constructor per message. */
  datatype Notice =
    | FillAllFields      // a field is empty after strip
    | NeedNumbers        // price or quantity is not an integer
    | SelectToUpdate     // update with no current row
    | SelectToDelete     // delete with no current row
    | EnterSearchTerm    // search with an empty name field
    | Added
    | Changed
    | Removed
    | Searched(term: string)
    | NothingToExport
    | Exported
    | ExportFailed

  /** A table position: None where the table holds no item. */
  type Cell = Option<string>

  type Table = seq<seq<Cell>>

  /** The table has four columns. */
  const Columns := 4

  const Headers: seq<string> := ["ID", "제품명", "가격", "수량"]

  const QtyCaption := "총 수량: "

  const AmountCaption := "총 금액: "

  /** What the database holds in a name: a non-empty, stripped string. */
  predicate StoredName(s: string) {
    s != [] && Strip(s) == s
  }

  predicate Stored(p: Product) {
    StoredName(p.name)
  }

  // ---------------------------------------------------------------- validation

  /** `int(str(n)) == n` and `str(n)` has nothing for strip to cut. */
  lemma DecimalStrip(n: int)
    ensures Decimal(n) != [] && Strip(Decimal(n)) == Decimal(n)
    ensures ParseInt(Decimal(n)) == Some(n)
  {
    DecimalRoundTrip(n);
    if n < 0 {
      SignedNoSpace(NatDigits(-n));
    } else {
      DigitsNoSpace(NatDigits(n));
    }
    StripNoSpace(Decimal(n));
  }

  /**
   * The checks add_product and update_product make before touching the database: every
   * stripped field must be non-empty, then price and quantity must be integer literals.
   */
  function Validate(nameText: string, priceText: string, qtyText: string): (r: Result<Entry, Notice>)
    ensures r.Success? ==> StoredName(r.value.name)
  {
    var name, p, q := Strip(nameText), Strip(priceText), Strip(qtyText);
    StripIdempotent(nameText);
    if name == [] || p == [] || q == [] then Failure(FillAllFields)
    else if ParseInt(p).Some? && ParseInt(q).Some? then
      Success(Entry(name, ParseInt(p).value, ParseInt(q).value))
    else Failure(NeedNumbers)
  }

  /**
   * Validation fails with "fill all fields" exactly when a stripped field is empty, fails
   * with "numbers" when price or quantity is not an integer literal, and otherwise passes
   * on the stripped name and the values `int()` gives.
   */
  lemma ValidateMeans(nameText: string, priceText: string, qtyText: string)
    ensures var r := Validate(nameText, priceText, qtyText);
      && (r.Failure? ==> r.error == FillAllFields || r.error == NeedNumbers)
      && (r.Failure? && r.error == FillAllFields
          <==> Strip(nameText) == [] || Strip(priceText) == [] || Strip(qtyText) == [])
      && (r.Success? <==> Strip(nameText) != [] && ParseInt(priceText).Some? && ParseInt(qtyText).Some?)
      && (r.Success? ==>
            r.value.name == Strip(nameText)
            && ParseInt(priceText) == Some(r.value.price) && ParseInt(qtyText) == Some(r.value.qty))
  {
    ParseIntStrip(priceText);
    ParseIntStrip(qtyText);
  }

  /**
   * Clicking a row copies its name, price and quantity into the fields; validating those
   * fields gives back exactly that product's values.
   */
  lemma FormRoundTrip(p: Product)
    requires Stored(p)
    ensures Validate(p.name, Decimal(p.price), Decimal(p.qty))
      == Success(Entry(p.name, p.price, p.qty))
  {
    DecimalStrip(p.price);
    DecimalStrip(p.qty);
  }

  // ---------------------------------------------------------------- the database

  /** `SELECT * FROM MyProd [WHERE name LIKE %term%]`, in insertion order. */
  predicate Matches(p: Product, term: Option<string>) {
    term.None? || Contains(Lower(p.name), Lower(term.value))
  }

  function Select(db: seq<Product>, term: Option<string>): (r: seq<Product>)
    ensures |r| <= |db|
    ensures forall p :: p in r <==> p in db && Matches(p, term)
  {
    if db == [] then []
    else (if Matches(db[0], term) then [db[0]] else []) + Select(db[1..], term)
  }

  /** Without a search term every product is listed. */
  lemma {:induction false} SelectAll(db: seq<Product>)
    ensures Select(db, None) == db
  {
    if db != [] {
      SelectAll(db[1..]);
    }
  }

  /** `UPDATE MyProd SET name, price, qty WHERE id = ?`. */
  function Revised(db: seq<Product>, id: int, e: Entry): (r: seq<Product>)
    ensures |r| == |db|
    ensures forall i :: 0 <= i < |db| ==> r[i].id == db[i].id
    ensures forall i :: 0 <= i < |db| && db[i].id != id ==> r[i] == db[i]
    ensures forall i :: 0 <= i < |db| && db[i].id == id ==> r[i] == Product(id, e.name, e.price, e.qty)
  {
    seq(|db|, i requires 0 <= i < |db| =>
      if db[i].id == id then Product(id, e.name, e.price, e.qty) else db[i])
  }

  /** Every product has a stored name and an id below the next AUTOINCREMENT value. */
  predicate Keeps(db: seq<Product>, next: int) {
    forall p :: p in db ==> Stored(p) && p.id < next
  }

  /** Inserting with the next id keeps `Keeps`, one id further on. */
  lemma InsertKeeps(db: seq<Product>, added: Product, next: int)
    requires Keeps(db, next) && Stored(added) && added.id == next
    ensures Keeps(db + [added], next + 1)
  {
    forall p | p in db + [added]
      ensures Stored(p) && p.id < next + 1
    {
      if p != added {
        assert p in db;
      }
    }
  }

  /** Updating keeps every name stored as it should be and every id below `next`. */
  lemma RevisedKeeps(db: seq<Product>, id: int, e: Entry, next: int)
    requires Keeps(db, next) && StoredName(e.name)
    ensures Keeps(Revised(db, id, e), next)
  {
    var r := Revised(db, id, e);
    forall p | p in r
      ensures Stored(p) && p.id < next
    {
      var i :| 0 <= i < |r| && r[i] == p;
      assert db[i] in db;
    }
  }

  /** `DELETE FROM MyProd WHERE id = ?`. */
  function Deleted(db: seq<Product>, id: int): (r: seq<Product>)
    ensures |r| <= |db|
    ensures forall p :: p in r <==> p in db && p.id != id
  {
    if db == [] then []
    else (if db[0].id == id then [] else [db[0]]) + Deleted(db[1..], id)
  }

  /** The table row load_data writes for a product: `str` of each column. */
  function Render(p: Product): seq<Cell> {
    [Some(Decimal(p.id)), Some(p.name), Some(Decimal(p.price)), Some(Decimal(p.qty))]
  }

  function Show(ps: seq<Product>): (t: Table)
    ensures |t| == |ps|
  {
    seq(|ps|, i requires 0 <= i < |ps| => Render(ps[i]))
  }

  // ---------------------------------------------------------------- totals

  function CellAt(row: seq<Cell>, c: nat): Cell {
    if c < |row| then row[c] else None
  }

  /**
   * The (price, quantity) update_totals reads from a row, or None where it skips the row:
   * a missing price or quantity item, or a text `int()` rejects.
   */
  function Reading(row: seq<Cell>): Option<(int, int)> {
    var price, qty := CellAt(row, 2), CellAt(row, 3);
    if price.None? || qty.None? then None
    else if ParseInt(price.value).Some? && ParseInt(qty.value).Some? then
      Some((ParseInt(price.value).value, ParseInt(qty.value).value))
    else None
  }

  /** What one row adds to (total quantity, total amount). */
  function Contribution(row: seq<Cell>): (int, int) {
    match Reading(row)
    case Some((price, qty)) => (qty, price * qty)
    case None => (0, 0)
  }

  predicate Within(t: Table, sel: seq<nat>) {
    forall i :: 0 <= i < |sel| ==> sel[i] < |t|
  }

  /** (Σ qty, Σ price·qty) over the selected rows, in selection order. */
  function Totals(t: Table, sel: seq<nat>): (int, int)
    requires Within(t, sel)
  {
    if sel == [] then (0, 0)
    else
      var before := Totals(t, sel[..|sel| - 1]);
      var c := Contribution(t[sel[|sel| - 1]]);
      (before.0 + c.0, before.1 + c.1)
  }

  /** The totals of two selections put together are the sums of their totals. */
  lemma {:induction false} TotalsAppend(t: Table, a: seq<nat>, b: seq<nat>)
    requires Within(t, a) && Within(t, b)
    ensures Within(t, a + b)
    ensures Totals(t, a + b).0 == Totals(t, a).0 + Totals(t, b).0
    ensures Totals(t, a + b).1 == Totals(t, a).1 + Totals(t, b).1
    decreases |b|
  {
    if b != [] {
      var b' := b[..|b| - 1];
      assert (a + b)[..|a + b| - 1] == a + b';
      TotalsAppend(t, a, b');
    } else {
      assert a + b == a;
    }
  }

  /** Selecting a row update_totals skips changes neither total. */
  lemma SkippedRow(t: Table, a: seq<nat>, r: nat, b: seq<nat>)
    requires Within(t, a) && Within(t, b) && r < |t|
    requires Reading(t[r]).None?
    ensures Within(t, a + [r] + b)
    ensures Totals(t, a + [r] + b).0 == Totals(t, a + b).0
    ensures Totals(t, a + [r] + b).1 == Totals(t, a + b).1
  {
    assert Totals(t, [r]).0 == 0 && Totals(t, [r]).1 == 0 by {
      assert [r][..0] == [];
    }
    TotalsAppend(t, a, [r]);
    TotalsAppend(t, a + [r], b);
    TotalsAppend(t, a, b);
  }

  /** Every row load_data writes is read back with its own price and quantity. */
  lemma ShownReading(p: Product)
    ensures Reading(Render(p)) == Some((p.price, p.qty))
  {
    DecimalStrip(p.price);
    DecimalStrip(p.qty);
  }

  lemma TotalsStep(t: Table, sel: seq<nat>, i: nat)
    requires Within(t, sel) && i < |sel|
    ensures Within(t, sel[..i]) && Within(t, sel[..i + 1])
    ensures Totals(t, sel[..i + 1]).0 == Totals(t, sel[..i]).0 + Contribution(t[sel[i]]).0
    ensures Totals(t, sel[..i + 1]).1 == Totals(t, sel[..i]).1 + Contribution(t[sel[i]]).1
  {
    assert sel[..i + 1][..i] == sel[..i];
  }

  /** update_totals' loop: adds up the selected rows one after another. */
  method AddUp(t: Table, sel: seq<nat>) returns (qty: int, amount: int)
    requires Within(t, sel)
    ensures (qty, amount) == Totals(t, sel)
  {
    qty, amount := 0, 0;
    var i := 0;
    while i < |sel|
      invariant 0 <= i <= |sel|
      invariant Within(t, sel[..i])
      invariant qty == Totals(t, sel[..i]).0 && amount == Totals(t, sel[..i]).1
    {
      TotalsStep(t, sel, i);
      var row := t[sel[i]];
      var price, qtyItem := CellAt(row, 2), CellAt(row, 3);
      if price.None? || qtyItem.None? {
        assert Contribution(row) == (0, 0);
        i := i + 1;
        continue;
      }
      var p, q := ParseInt(price.value), ParseInt(qtyItem.value);
      if p.None? || q.None? {
        assert Contribution(row) == (0, 0);
        i := i + 1;
        continue;
      }
      assert Contribution(row) == (q.value, p.value * q.value);
      qty := qty + q.value;
      amount := amount + p.value * q.value;
      i := i + 1;
    }
    assert sel[..|sel|] == sel;
    assert (qty, amount) == Totals(t, sel);
  }

  // ---------------------------------------------------------------- export

  /** The text export_to_excel writes for a table position: '' where there is no item. */
  function CellText(c: Cell): string {
    if c.Some? then c.value else ""
  }

  /** The worksheet rows export_to_excel appends: the headers, then one row per table row. */
  method Sheet(t: Table) returns (rows: seq<seq<string>>)
    ensures |rows| == |t| + 1 && rows[0] == Headers
    ensures forall r :: 1 <= r <= |t| ==> |rows[r]| == Columns
    ensures forall r, c :: 1 <= r <= |t| && 0 <= c < Columns ==>
      rows[r][c] == (if c < |t[r - 1]| && t[r - 1][c].Some? then t[r - 1][c].value else "")
  {
    rows := [Headers];
    var r := 0;
    while r < |t|
      invariant 0 <= r <= |t| && |rows| == r + 1 && rows[0] == Headers
      invariant forall k :: 1 <= k <= r ==> |rows[k]| == Columns
      invariant forall k, c :: 1 <= k <= r && 0 <= c < Columns ==> rows[k][c] == CellText(CellAt(t[k - 1], c))
    {
      var values: seq<string> := [];
      var c := 0;
      while c < Columns
        invariant 0 <= c <= Columns && |values| == c
        invariant forall j :: 0 <= j < c ==> values[j] == CellText(CellAt(t[r], j))
      {
        values := values + [CellText(CellAt(t[r], c))];
        c := c + 1;
      }
      rows := rows + [values];
      r := r + 1;
    }
  }

  /** A workbook exported from the rows load_data wrote reads back as the same products. */
  lemma ExportRoundTrip(ps: seq<Product>, r: nat)
    requires r < |ps|
    ensures ParseInt(CellText(CellAt(Show(ps)[r], 0))) == Some(ps[r].id)
    ensures CellText(CellAt(Show(ps)[r], 1)) == ps[r].name
    ensures ParseInt(CellText(CellAt(Show(ps)[r], 2))) == Some(ps[r].price)
    ensures ParseInt(CellText(CellAt(Show(ps)[r], 3))) == Some(ps[r].qty)
  {
    DecimalStrip(ps[r].id);
    DecimalStrip(ps[r].price);
    DecimalStrip(ps[r].qty);
  }

  // ---------------------------------------------------------------- the window

  function Samples(first: int): (ps: seq<Product>)
    ensures |ps| == 5 && forall i :: 0 <= i < 5 ==> ps[i].id == first + i
  {
    [Product(first, "종합영양제", 25000, 50),
     Product(first + 1, "비타민 C", 15000, 75),
     Product(first + 2, "오메가3", 35000, 30),
     Product(first + 3, "칼슘 보충제", 20000, 45),
     Product(first + 4, "유산균 프로바이오틱스", 28000, 40)]
  }

  /** The sample names are stored as they are. */
  lemma SamplesStored(first: int)
    ensures forall p :: p in Samples(first) ==> Stored(p)
  {
    var ps := Samples(first);
    forall i | 0 <= i < 5
      ensures Stored(ps[i])
    {
      StripKeeps(ps[i].name);
    }
  }

  class Window {
    /** MyProd, in rowid order, and the next AUTOINCREMENT id. */
    var db: seq<Product>
    var nextId: int
    /** The table widget, and the products it was filled from. */
    var table: Table
    ghost var shown: seq<Product>
    var nameInput: string
    var priceInput: string
    var qtyInput: string
    var qtyLabel: string
    var amountLabel: string
    /** The last message box shown. */
    var notice: Option<Notice>

    ghost predicate Valid()
      reads this
    {
      Keeps(db, nextId)
      && (forall p :: p in shown ==> Stored(p))
      && table == Show(shown)
    }

    /** init_database (seeding an empty table) followed by load_data. */
    constructor(stored: seq<Product>, next: int)
      requires forall p :: p in stored ==> Stored(p) && p.id < next
      ensures Valid()
      ensures db == (if stored == [] then Samples(next) else stored)
      ensures nextId == (if stored == [] then next + 5 else next)
      ensures shown == db && nameInput == priceInput == qtyInput == ""
      ensures qtyLabel == QtyCaption + "0" && amountLabel == AmountCaption + "0"
      ensures notice == None
    {
      SamplesStored(next);
      db := if stored == [] then Samples(next) else stored;
      nextId := if stored == [] then next + 5 else next;
      var all := if stored == [] then Samples(next) else stored;
      shown := all;
      table := Show(all);
      nameInput, priceInput, qtyInput := "", "", "";
      qtyLabel, amountLabel := QtyCaption + "0", AmountCaption + "0";
      notice := None;
    }

    /** Writes the totals of the selected rows into the two labels, with `{:,}`. */
    method UpdateTotals(selected: seq<nat>)
      requires Within(table, selected)
      modifies this
      ensures db == old(db) && nextId == old(nextId) && table == old(table) && shown == old(shown)
      ensures qtyLabel == QtyCaption + Thousands(Totals(table, selected).0)
      ensures amountLabel == AmountCaption + Thousands(Totals(table, selected).1)
      ensures nameInput == old(nameInput) && priceInput == old(priceInput) && qtyInput == old(qtyInput)
      ensures notice == old(notice)
    {
      var qty, amount := AddUp(table, selected);
      qtyLabel := QtyCaption + Thousands(qty);
      amountLabel := AmountCaption + Thousands(amount);
    }

    /** Refills the table from the database, clears the selection and the totals. */
    method LoadData(term: Option<string>)
      requires Valid()
      modifies this
      ensures Valid() && shown == Select(db, term) && table == Show(shown)
      ensures term.None? ==> shown == db
      ensures qtyLabel == QtyCaption + "0" && amountLabel == AmountCaption + "0"
      ensures db == old(db) && nextId == old(nextId)
      ensures nameInput == old(nameInput) && priceInput == old(priceInput) && qtyInput == old(qtyInput)
      ensures notice == old(notice)
    {
      SelectAll(db);
      shown := Select(db, term);
      table := Show(Select(db, term));
      UpdateTotals([]);
    }

    method ClearInputs()
      modifies this
      ensures nameInput == priceInput == qtyInput == ""
      ensures db == old(db) && nextId == old(nextId) && table == old(table) && shown == old(shown)
      ensures qtyLabel == old(qtyLabel) && amountLabel == old(amountLabel) && notice == old(notice)
    {
      nameInput, priceInput, qtyInput := "", "", "";
    }

    /** add_product. */
    method AddProduct()
      requires Valid()
      modifies this
      ensures Valid()
      ensures Validate(old(nameInput), old(priceInput), old(qtyInput)).Failure? ==>
        notice == Some(Validate(old(nameInput), old(priceInput), old(qtyInput)).error)
        && db == old(db) && nextId == old(nextId) && table == old(table) && shown == old(shown)
        && nameInput == old(nameInput) && priceInput == old(priceInput) && qtyInput == old(qtyInput)
        && qtyLabel == old(qtyLabel) && amountLabel == old(amountLabel)
      ensures Validate(old(nameInput), old(priceInput), old(qtyInput)).Success? ==>
        var e := Validate(old(nameInput), old(priceInput), old(qtyInput)).value;
        db == old(db) + [Product(old(nextId), e.name, e.price, e.qty)] && nextId == old(nextId) + 1
        && notice == Some(Added) && shown == db && nameInput == priceInput == qtyInput == ""
        && qtyLabel == QtyCaption + "0" && amountLabel == AmountCaption + "0"
    {
      var v := Validate(nameInput, priceInput, qtyInput);
      if v.Failure? {
        notice := Some(v.error);
        return;
      }
      Insert(v.value);
    }

    /** The INSERT, the confirmation, clear_inputs and load_data that follow a valid add. */
    method Insert(e: Entry)
      requires Valid() && StoredName(e.name)
      modifies this
      ensures Valid()
      ensures db == old(db) + [Product(old(nextId), e.name, e.price, e.qty)] && nextId == old(nextId) + 1
      ensures notice == Some(Added) && shown == db && nameInput == priceInput == qtyInput == ""
      ensures qtyLabel == QtyCaption + "0" && amountLabel == AmountCaption + "0"
    {
      var added := Product(nextId, e.name, e.price, e.qty);
      InsertKeeps(db, added, nextId);
      db := db + [added];
      nextId := nextId + 1;
      notice := Some(Added);
      ClearInputs();
      LoadData(None);
    }

    /** update_product; `currentRow` is the table's current row, -1 when there is none. */
    method UpdateProduct(currentRow: int)
      requires Valid() && currentRow < |table|
      modifies this
      ensures Valid()
      ensures currentRow < 0 ==>
        notice == Some(SelectToUpdate) && db == old(db) && table == old(table) && shown == old(shown)
        && nameInput == old(nameInput) && priceInput == old(priceInput) && qtyInput == old(qtyInput)
        && qtyLabel == old(qtyLabel) && amountLabel == old(amountLabel)
      ensures currentRow >= 0 && Validate(old(nameInput), old(priceInput), old(qtyInput)).Failure? ==>
        notice == Some(Validate(old(nameInput), old(priceInput), old(qtyInput)).error)
        && db == old(db) && table == old(table) && shown == old(shown)
        && nameInput == old(nameInput) && priceInput == old(priceInput) && qtyInput == old(qtyInput)
        && qtyLabel == old(qtyLabel) && amountLabel == old(amountLabel)
      ensures currentRow >= 0 && Validate(old(nameInput), old(priceInput), old(qtyInput)).Success? ==>
        db == Revised(old(db), old(shown)[currentRow].id, Validate(old(nameInput), old(priceInput), old(qtyInput)).value)
        && notice == Some(Changed) && shown == db && nameInput == priceInput == qtyInput == ""
        && qtyLabel == QtyCaption + "0" && amountLabel == AmountCaption + "0"
      ensures nextId == old(nextId)
    {
      if currentRow < 0 {
        notice := Some(SelectToUpdate);
        return;
      }
      assert table[currentRow] == Render(shown[currentRow]);
      DecimalStrip(shown[currentRow].id);
      var id := ParseInt(table[currentRow][0].value).value;
      var v := Validate(nameInput, priceInput, qtyInput);
      if v.Failure? {
        notice := Some(v.error);
        return;
      }
      RevisedKeeps(db, id, v.value, nextId);
      db := Revised(db, id, v.value);
      notice := Some(Changed);
      ClearInputs();
      LoadData(None);
    }

    /** delete_product; `yes` is the answer to the confirmation question. */
    method DeleteProduct(currentRow: int, yes: bool)
      requires Valid() && currentRow < |table|
      modifies this
      ensures Valid()
      ensures currentRow < 0 ==>
        notice == Some(SelectToDelete) && db == old(db) && table == old(table) && shown == old(shown)
        && nameInput == old(nameInput) && priceInput == old(priceInput) && qtyInput == old(qtyInput)
        && qtyLabel == old(qtyLabel) && amountLabel == old(amountLabel)
      ensures currentRow >= 0 && !yes ==>
        notice == old(notice) && db == old(db) && table == old(table) && shown == old(shown)
        && nameInput == old(nameInput) && priceInput == old(priceInput) && qtyInput == old(qtyInput)
        && qtyLabel == old(qtyLabel) && amountLabel == old(amountLabel)
      ensures currentRow >= 0 && yes ==>
        db == Deleted(old(db), old(shown)[currentRow].id)
        && notice == Some(Removed) && shown == db && nameInput == priceInput == qtyInput == ""
        && qtyLabel == QtyCaption + "0" && amountLabel == AmountCaption + "0"
      ensures nextId == old(nextId)
    {
      if currentRow < 0 {
        notice := Some(SelectToDelete);
        return;
      }
      assert table[currentRow] == Render(shown[currentRow]);
      DecimalStrip(shown[currentRow].id);
      var id := ParseInt(table[currentRow][0].value).value;
      if yes {
        db := Deleted(db, id);
        notice := Some(Removed);
        ClearInputs();
        LoadData(None);
      }
    }

    /** search_product: reloads with the stripped name field as the LIKE term. */
    method SearchProduct()
      requires Valid()
      modifies this
      ensures Valid()
      ensures Strip(old(nameInput)) == [] ==>
        notice == Some(EnterSearchTerm) && table == old(table) && shown == old(shown)
        && qtyLabel == old(qtyLabel) && amountLabel == old(amountLabel)
      ensures Strip(old(nameInput)) != [] ==>
        notice == Some(Searched(Strip(old(nameInput)))) && shown == Select(db, Some(Strip(old(nameInput))))
        && qtyLabel == QtyCaption + "0" && amountLabel == AmountCaption + "0"
      ensures db == old(db) && nextId == old(nextId)
      ensures nameInput == old(nameInput) && priceInput == old(priceInput) && qtyInput == old(qtyInput)
    {
      var term := Strip(nameInput);
      if term == [] {
        notice := Some(EnterSearchTerm);
        return;
      }
      LoadData(Some(term));
      notice := Some(Searched(term));
    }

    /** on_table_clicked: the current row's name, price and quantity go into the fields. */
    method OnTableClicked(currentRow: int)
      requires Valid() && currentRow < |table|
      modifies this
      ensures Valid()
      ensures db == old(db) && nextId == old(nextId) && table == old(table) && shown == old(shown)
      ensures currentRow >= 0 ==>
        var p := shown[currentRow];
        nameInput == p.name && priceInput == Decimal(p.price) && qtyInput == Decimal(p.qty)
      ensures currentRow < 0 ==>
        nameInput == old(nameInput) && priceInput == old(priceInput) && qtyInput == old(qtyInput)
      ensures qtyLabel == old(qtyLabel) && amountLabel == old(amountLabel) && notice == old(notice)
    {
      if currentRow >= 0 {
        assert table[currentRow] == Render(shown[currentRow]);
        nameInput := table[currentRow][1].value;
        priceInput := table[currentRow][2].value;
        qtyInput := table[currentRow][3].value;
      }
    }

    /** export_to_excel; `saved` is whether writing the file succeeded. */
    method ExportToExcel(saved: bool) returns (sheet: Option<seq<seq<string>>>)
      requires Valid()
      modifies this
      ensures |table| == 0 <==> sheet.None?
      ensures |table| == 0 ==> notice == Some(NothingToExport)
      ensures sheet.Some? ==>
        |sheet.value| == |table| + 1 && sheet.value[0] == Headers
        && (forall r :: 1 <= r <= |table| ==> |sheet.value[r]| == Columns)
        && (forall r, c :: 1 <= r <= |table| && 0 <= c < Columns ==>
              sheet.value[r][c] == CellText(CellAt(table[r - 1], c)))
        && notice == Some(if saved then Exported else ExportFailed)
      ensures Valid() && db == old(db) && nextId == old(nextId) && table == old(table) && shown == old(shown)
      ensures nameInput == old(nameInput) && priceInput == old(priceInput) && qtyInput == old(qtyInput)
      ensures qtyLabel == old(qtyLabel) && amountLabel == old(amountLabel)
    {
      if |table| == 0 {
        notice := Some(NothingToExport);
        return None;
      }
      var rows := Sheet(table);
      sheet := Some(rows);
      notice := Some(if saved then Exported else ExportFailed);
    }
  }
}
