/** The spreadsheet `exportToExcel` builds from the ledger: a header row of
    eleven column names and one row of eleven cells per entry, in ledger
    order. The date cell holds the day serial of the 1900 date system; the
    four numeric cells hold the number rounded to hundredths and the decimal
    separator it is written with. */
module Export {
  import opened Wrappers
  import JsNumber
  import CivilDate
  import Transactions
  import Sequences

  type Entry = Transactions.Transaction

  /** The decimal separator of the exported numbers. */
  datatype Separator = Comma | Period

  /** `getDecimalSeparator`: the value of the checked `decimalSeparator`
      radio button (`None` when none is checked) decides; anything but
      "period" means a comma. */
  function DecimalSeparator(checked: Option<string>): (r: Separator)
    ensures r == Period <==> checked == Some("period")
  {
    match checked
    case Some(v) => if v != "comma" && v != "period" then Comma else if v == "period" then Period else Comma
    case None => Comma
  }

  /** A cell of the sheet. `Serial(None)` is the NaN an Invalid Date gives;
      `Number` is the value shown, already rounded to two fraction digits,
      and the separator it is written with. */
  datatype Cell =
    | Label(text: string)
    | Serial(day: Option<int>)
    | Number(value: JsNumber.Num, separator: Separator)

  const SheetName := "Combined Transactions"

  /** The header row. */
  const ColumnNames: seq<string> :=
    ["Date", "Account", "Type", "Action", "Symbol", "Name", "Currency", "Amount", "Price(1)", "Cost", "Fee"]

  function HeaderRow(): (r: seq<Cell>)
    ensures |r| == |ColumnNames|
    ensures forall i :: 0 <= i < |r| ==> r[i] == Label(ColumnNames[i])
  {
    seq(|ColumnNames|, i requires 0 <= i < |ColumnNames| => Label(ColumnNames[i]))
  }

  /** The text of an action, as the ledger holds it. */
  function ActionName(a: Transactions.Action): string
  {
    match a
    case Buy => "Buy"
    case Sell => "Sell"
  }

  /** The number of hundredths `x` rounds to, a tie away from zero, as
      `toLocaleString` with `maximumFractionDigits: 2` rounds: the whole
      number nearest to `100 * x`. */
  function RoundCents(x: real): (k: int)
    ensures x * 100.0 - 0.5 <= k as real <= x * 100.0 + 0.5
    ensures x >= 0.0 ==> k >= 0
    ensures x <= 0.0 ==> k <= 0
  {
    if x >= 0.0 then (x * 100.0 + 0.5).Floor
    else -((-x * 100.0 + 0.5).Floor)
  }

  /** A number as the sheet shows it: a finite value rounded to hundredths,
      an infinity as it is. */
  function Shown(n: JsNumber.Num): (r: JsNumber.Num)
    ensures r.Infinite? <==> n.Infinite?
    ensures n.Infinite? ==> r == n
    ensures n.Finite? ==> -0.005 <= r.value - n.value <= 0.005
  {
    match n
    case Finite(v) => JsNumber.Finite(RoundCents(v) as real / 100.0)
    case Infinite(_) => n
  }

  /** The entry as its row shows it: every field as it is, the four numbers
      rounded to hundredths. */
  function Written(t: Entry): (w: Entry)
    ensures w.date == t.date && w.account == t.account && w.assetType == t.assetType
    ensures w.action == t.action && w.symbol == t.symbol && w.name == t.name && w.currency == t.currency
    ensures t.amount.Finite? ==> w.amount.Finite? && -0.005 <= w.amount.value - t.amount.value <= 0.005
    ensures t.price.Finite? ==> w.price.Finite? && -0.005 <= w.price.value - t.price.value <= 0.005
    ensures t.cost.Finite? ==> w.cost.Finite? && -0.005 <= w.cost.value - t.cost.value <= 0.005
    ensures t.fee.Finite? ==> w.fee.Finite? && -0.005 <= w.fee.value - t.fee.value <= 0.005
  {
    t.(amount := Shown(t.amount), price := Shown(t.price), cost := Shown(t.cost), fee := Shown(t.fee))
  }

  /** The row of one entry: the day serial of its trade date, its texts, and
      its four numbers rounded to hundredths. */
  function Row(t: Entry, sep: Separator): (r: seq<Cell>)
    ensures |r| == |ColumnNames|
    ensures r[0] == Serial(CivilDate.DateToExcelNumber(t.date))
    ensures forall i :: 7 <= i < |r| ==> r[i].Number? && r[i].separator == sep
  {
    [Serial(CivilDate.DateToExcelNumber(t.date)),
     Label(t.account), Label(t.assetType), Label(ActionName(t.action)), Label(t.symbol),
     Label(t.name), Label(t.currency),
     Number(Shown(t.amount), sep), Number(Shown(t.price), sep), Number(Shown(t.cost), sep), Number(Shown(t.fee), sep)]
  }

  /** The grid of a ledger: the header, then one row per entry. */
  function Grid(ledger: seq<Entry>, sep: Separator): (g: seq<seq<Cell>>)
    ensures |g| == |ledger| + 1
  {
    if ledger == [] then [HeaderRow()]
    else Grid(ledger[..|ledger| - 1], sep) + [Row(ledger[|ledger| - 1], sep)]
  }

  /** The grid starts with the header, and row `i + 1` is the row of entry `i`. */
  lemma {:induction false} GridRows(ledger: seq<Entry>, sep: Separator, i: nat)
    requires i <= |ledger|
    ensures Grid(ledger, sep)[i] == if i == 0 then HeaderRow() else Row(ledger[i - 1], sep)
  {
    var n := |ledger|;
    if n > 0 && i < n {
      GridRows(ledger[..n - 1], sep, i);
    }
  }

  /** Every row of the grid has a cell for each column. */
  lemma GridIsRectangular(ledger: seq<Entry>, sep: Separator, i: nat)
    requires i <= |ledger|
    ensures |Grid(ledger, sep)[i]| == |ColumnNames|
  {
    GridRows(ledger, sep, i);
  }

  /** The action back from its text. */
  function ActionOfName(s: string): Option<Transactions.Action>
  {
    if s == "Buy" then Some(Transactions.Buy) else if s == "Sell" then Some(Transactions.Sell) else None
  }

  /** An entry back from its row: the day number from the serial, the other
      fields as written. `None` for a row of another shape. */
  function ReadRow(r: seq<Cell>): Option<Entry>
  {
    if |r| != 11 then None
    else if !r[0].Serial? || !(r[1].Label? && r[2].Label? && r[3].Label? && r[4].Label? && r[5].Label? && r[6].Label?) then None
    else if !(r[7].Number? && r[8].Number? && r[9].Number? && r[10].Number?) then None
    else
      var date := match r[0].day case None => None case Some(n) => Some(n + CivilDate.Excel1900() - 2);
      match ActionOfName(r[3].text)
      case None => None
      case Some(a) =>
        Some(Transactions.Transaction(date, r[1].text, r[2].text, a, r[4].text, r[5].text, r[6].text,
                                      r[7].value, r[8].value, r[9].value, r[10].value))
  }

  /** A row loses nothing of its entry but the digits its numbers are
      rounded away: what is read back is the entry as written, the trade
      date included. */
  lemma ReadRowOfRow(t: Entry, sep: Separator)
    ensures ReadRow(Row(t, sep)) == Some(Written(t))
  {
  }

  /** The entries of a grid, read back row by row after the header. */
  function ReadGrid(g: seq<seq<Cell>>): Option<seq<Entry>>
  {
    if |g| <= 1 then (if |g| == 1 then Some([]) else None)
    else
      match ReadGrid(g[..|g| - 1])
      case None => None
      case Some(before) =>
        match ReadRow(g[|g| - 1])
        case None => None
        case Some(t) => Some(before + [t])
  }

  /** The grid holds the whole ledger, in ledger order, each entry as its
      row shows it. */
  lemma {:induction false} ReadGridOfGrid(ledger: seq<Entry>, sep: Separator)
    ensures ReadGrid(Grid(ledger, sep)) == Some(Sequences.Map(Written, ledger))
  {
    var n := |ledger|;
    if n > 0 {
      ReadGridOfGrid(ledger[..n - 1], sep);
      var g := Grid(ledger, sep);
      assert g[..|g| - 1] == Grid(ledger[..n - 1], sep);
      ReadRowOfRow(ledger[n - 1], sep);
      assert ledger[..n - 1] + [ledger[n - 1]] == ledger;
      Sequences.MapAppend(Written, ledger[..n - 1], [ledger[n - 1]]);
      assert Sequences.Map(Written, [ledger[n - 1]]) == [Written(ledger[n - 1])];
    }
  }
}
