/**
 * The tables the reconciliation reads: a header row and data rows whose
 * cells are missing, numeric or text, as a spreadsheet loader delivers them.
 */
module Tables {
  import opened Wrappers
  import opened Text

  /** One spreadsheet cell; `Missing` stands for pandas' NaN and for an absent column. */
  datatype Cell = Missing | Num(value: real) | Str(text: string)

  type Row = map<string, Cell>

  datatype Table = Table(columns: seq<string>, rows: seq<Row>)

  /** `row.get(column)`, with an absent column read as missing. */
  function Get(row: Row, column: string): Cell {
    if column in row then row[column] else Missing
  }

  /**
   * `find_column`: the first of `names`, in priority order, that is an exact
   * header of the table, or `None` when no name is a header.
   */
  function FindColumn(columns: seq<string>, names: seq<string>): (r: Option<string>)
    ensures r.None? <==> forall i | 0 <= i < |names| :: names[i] !in columns
    ensures r.Some? ==> r.value in columns && exists i | 0 <= i < |names| ::
      names[i] == r.value && forall j | 0 <= j < i :: names[j] !in columns
  {
    if names == [] then None
    else if names[0] in columns then Some(names[0])
    else
      var r := FindColumn(columns, names[1..]);
      assert r.Some? ==> exists i | 0 <= i < |names[1..]| ::
        names[1..][i] == r.value && forall j | 0 <= j < i :: names[1..][j] !in columns;
      assert r.Some? ==> exists i | 1 <= i < |names| ::
        names[i] == r.value && forall j | 0 <= j < i :: names[j] !in columns;
      r
  }

  /**
   * `float(x) if pd.notna(x) else default` with the surrounding `except`
   * falling back to `default`. Every text cell is treated as non-numeric, so
   * a text cell holding digits also gives `default` here.
   */
  function NumberOr(c: Cell, default: real): real {
    if c.Num? then c.value else default
  }

  /** Kind order used to compare cells of different kinds. */
  function Rank(c: Cell): nat {
    match c
    case Missing => 0
    case Num(_) => 1
    case Str(_) => 2
  }

  /** Ascending order of group keys: numbers by value, text by code point. */
  predicate CellLe(a: Cell, b: Cell) {
    if Rank(a) != Rank(b) then Rank(a) < Rank(b)
    else if a.Num? then a.value <= b.value
    else if a.Str? then StrLe(a.text, b.text)
    else true
  }

  lemma CellLeTotal(a: Cell, b: Cell)
    ensures CellLe(a, b) || CellLe(b, a)
  {
    if a.Str? && b.Str? {
      StrLeTotal(a.text, b.text);
    }
  }

  lemma CellLeTransitive(a: Cell, b: Cell, c: Cell)
    requires CellLe(a, b) && CellLe(b, c)
    ensures CellLe(a, c)
  {
    if a.Str? && b.Str? && c.Str? {
      StrLeTransitive(a.text, b.text, c.text);
    }
  }
}
