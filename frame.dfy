/** The wide player-season table the view reads (one row per skater) and the
    pandas idioms it uses on a single row: `row.get(col, default)`,
    `pd.notna`, `fillna(0)`, `int(x)` and the first-row lookup by player id. */
module Frame {
  import opened Wrappers

  /** A numeric cell; `Missing` is pandas' NaN. */
  datatype Cell = Num(value: real) | Missing

  /** One table row: the integer-coerced `playerId` and the other columns. */
  datatype Row = Row(playerId: int, cells: map<string, Cell>)

  /** Column names in table order, and the rows in table order. */
  datatype Table = Table(columns: seq<string>, rows: seq<Row>)

  /** `row.get(col, default)`: the cell when the row has the column. */
  function Get(r: Row, col: string, default: Cell): Cell {
    if col in r.cells then r.cells[col] else default
  }

  /** `row.get(col, nan)` followed by `float(x) if pd.notna(x) else None`. */
  function Scalar(r: Row, col: string): (v: Option<real>)
    ensures v.None? <==> col !in r.cells || r.cells[col].Missing?
    ensures v.Some? ==> r.cells[col] == Num(v.value)
  {
    match Get(r, col, Missing)
    case Num(x) => Some(x)
    case Missing => None
  }

  /** `series.fillna(0)` on one cell. */
  function FillNa(c: Cell): real {
    match c
    case Num(x) => x
    case Missing => 0.0
  }

  /** Python's `int(x)` on a float: truncation toward zero. */
  function Trunc(x: real): (n: int)
    ensures 0.0 <= x ==> 0 <= n && n as real <= x < n as real + 1.0
    ensures x < 0.0 ==> n <= 0 && n as real - 1.0 < x <= n as real
  {
    if 0.0 <= x then x.Floor else -((-x).Floor)
  }

  /** Position of the first row whose player id is `id`
      (`loc[... == player_id].iloc[0]`); `None` where `iloc[0]` raises. */
  function FirstIndex(rows: seq<Row>, id: int): (k: Option<nat>)
    ensures k.Some? ==> k.value < |rows| && rows[k.value].playerId == id
    ensures k.Some? ==> forall j :: 0 <= j < k.value ==> rows[j].playerId != id
    ensures k.None? <==> forall j :: 0 <= j < |rows| ==> rows[j].playerId != id
  {
    if rows == [] then None
    else if rows[0].playerId == id then Some(0)
    else
      match FirstIndex(rows[1..], id)
      case None => None
      case Some(j) => Some(j + 1)
  }

  /** The selected player's row: the first one with that player id. */
  function FetchRow(t: Table, id: int): (r: Option<Row>)
    ensures r.Some? ==> r.value in t.rows && r.value.playerId == id
    ensures r.Some? ==> exists k :: 0 <= k < |t.rows| && t.rows[k] == r.value && forall j :: 0 <= j < k ==> t.rows[j].playerId != id
    ensures r.None? <==> forall row :: row in t.rows ==> row.playerId != id
  {
    match FirstIndex(t.rows, id)
    case None => None
    case Some(k) => Some(t.rows[k])
  }

  /** Games played (lines 71 and 74): `row.get(gp_col, 0)`, then
      `int(gp) if pd.notna(gp) else 0`. */
  function GamesPlayed(r: Row, gpCol: string): (gp: int)
    ensures Scalar(r, gpCol).None? ==> gp == 0
    ensures Scalar(r, gpCol).Some? ==> gp == Trunc(Scalar(r, gpCol).value)
  {
    match Get(r, gpCol, Num(0.0))
    case Num(x) => Trunc(x)
    case Missing => 0
  }

  /** Time on ice (lines 72 and 75): `row.get(toi_col, 0.0)`, then
      `float(toi) if pd.notna(toi) else 0.0`. */
  function TimeOnIce(r: Row, toiCol: string): (toi: real)
    ensures Scalar(r, toiCol).None? ==> toi == 0.0
    ensures Scalar(r, toiCol).Some? ==> toi == Scalar(r, toiCol).value
  {
    match Get(r, toiCol, Num(0.0))
    case Num(x) => x
    case Missing => 0.0
  }

  /** Looking up player 99 in a table of players 1, 2 and 3 finds nothing. */
  lemma MissingPlayerExample(t: Table)
    requires |t.rows| == 3
    requires t.rows[0].playerId == 1 && t.rows[1].playerId == 2 && t.rows[2].playerId == 3
    ensures FetchRow(t, 99) == None
  {
  }
}
