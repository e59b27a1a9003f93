/** QTable: the dense users x items table of Q-values, its row queries
    (maximum and first arg-max), the temporal-difference update of one cell
    and the recommendation read from a row. The pure `Table` value is the
    meaning of the table; `MutableTable` is the frame the trainer updates in
    place. */
module QTable {
  import opened Labels

  /** A label outside the table's rows or columns (pandas' KeyError), an
      arg-max asked of a row with no columns (pandas' ValueError), or a random
      choice from an empty universe (Python's IndexError). */
  datatype Error = KeyError | EmptyRow | EmptyChoice

  datatype Result<T> = Ok(value: T) | Err(error: Error)

  datatype Status = Pass | Fail(error: Error)

  /** Row labels (users), column labels (items) and one row of Q-values per user. */
  datatype Table = Table(users: seq<int>, items: seq<int>, cells: seq<seq<real>>) {
    /** One row per user, one column per item. */
    predicate Valid() {
      |cells| == |users| && forall i :: 0 <= i < |cells| ==> |cells[i]| == |items|
    }
  }

  /** Every cell is non-negative. */
  predicate NonNegative(t: Table) {
    forall i, j :: 0 <= i < |t.cells| && 0 <= j < |t.cells[i]| ==> t.cells[i][j] >= 0.0
  }

  /** The table `initialize_q_table` builds: every cell 0. */
  function InitialTable(users: seq<int>, items: seq<int>): (t: Table)
    ensures t.Valid() && t.users == users && t.items == items
    ensures forall i, j :: 0 <= i < |users| && 0 <= j < |items| ==> t.cells[i][j] == 0.0
  {
    Table(users, items, seq(|users|, _ => seq(|items|, _ => 0.0)))
  }

  lemma InitialTableNonNegative(users: seq<int>, items: seq<int>)
    ensures NonNegative(InitialTable(users, items))
  {
  }

  /** The maximum of a non-empty row (pandas' `Series.max`). */
  function RowMax(row: seq<real>): (m: real)
    requires |row| > 0
    ensures m in row
    ensures forall j :: 0 <= j < |row| ==> row[j] <= m
  {
    if |row| == 1 then row[0]
    else
      var m' := RowMax(row[..|row| - 1]);
      assert forall j :: 0 <= j < |row| - 1 ==> row[..|row| - 1][j] == row[j];
      if row[|row| - 1] > m' then row[|row| - 1] else m'
  }

  /** Column `k` holds the row's maximum and no earlier column does. */
  predicate IsFirstMax(row: seq<real>, k: int) {
    0 <= k < |row| &&
    (forall j :: 0 <= j < |row| ==> row[j] <= row[k]) &&
    (forall j :: 0 <= j < k ==> row[j] < row[k])
  }

  /** The first column of a non-empty row holding its maximum (pandas'
      `Series.idxmax`, as a position). */
  function ArgMax(row: seq<real>): (k: nat)
    requires |row| > 0
    ensures IsFirstMax(row, k)
  {
    if |row| == 1 then 0
    else
      var k' := ArgMax(row[..|row| - 1]);
      assert forall j :: 0 <= j < |row| - 1 ==> row[..|row| - 1][j] == row[j];
      if row[|row| - 1] > row[k'] then |row| - 1 else k'
  }

  /** A row has exactly one first maximal column, and it holds the row maximum. */
  lemma FirstMaxUnique(row: seq<real>, k: int)
    requires IsFirstMax(row, k)
    ensures k == ArgMax(row) && row[k] == RowMax(row)
  {
  }

  /** The temporal-difference target blended into the current value. */
  function NewQ(current: real, rating: real, learningRate: real, discountFactor: real, maxFuture: real): real {
    current + learningRate * (rating + discountFactor * maxFuture - current)
  }

  /** The update is the convex blend (1 - lr) * current + lr * target, so with
      a learning rate of 1 the cell becomes exactly the target. */
  lemma NewQBlend(current: real, rating: real, lr: real, df: real, maxFuture: real)
    ensures NewQ(current, rating, lr, df, maxFuture)
            == (1.0 - lr) * current + lr * (rating + df * maxFuture)
    ensures lr == 1.0 ==> NewQ(current, rating, lr, df, maxFuture) == rating + df * maxFuture
  {
  }

  /** Non-negative inputs with 0 < lr <= 1 and df >= 0 give a non-negative value. */
  lemma NewQNonNegative(current: real, rating: real, lr: real, df: real, maxFuture: real)
    requires current >= 0.0 && rating >= 0.0 && maxFuture >= 0.0
    requires 0.0 < lr <= 1.0 && df >= 0.0
    ensures NewQ(current, rating, lr, df, maxFuture) >= 0.0
  {
    NewQBlend(current, rating, lr, df, maxFuture);
    var target := rating + df * maxFuture;
    assert df * maxFuture >= 0.0;
    assert (1.0 - lr) * current >= 0.0;
    assert lr * target >= 0.0;
  }

  /** `t` with cell (i, j) replaced by `v`. */
  function SetCell(t: Table, i: nat, j: nat, v: real): (r: Table)
    requires t.Valid() && i < |t.users| && j < |t.items|
    ensures r.Valid() && r.users == t.users && r.items == t.items
    ensures r.cells[i][j] == v
    ensures forall a, b :: 0 <= a < |t.users| && 0 <= b < |t.items| && (a != i || b != j) ==>
              r.cells[a][b] == t.cells[a][b]
  {
    Table(t.users, t.items, t.cells[i := t.cells[i][j := v]])
  }

  /** `update_q_value`: a KeyError when the user or the item is not a label of
      the table; otherwise only cell (user, item) changes, to the blend of its
      current value with rating + discountFactor * (maximum of the same row,
      read before the write). */
  function Update(t: Table, user: int, item: int, rating: real, lr: real, df: real): (r: Result<Table>)
    requires t.Valid()
    ensures r.Err? <==> user !in t.users || item !in t.items
    ensures r.Err? ==> r.error == KeyError
    ensures r.Ok? ==> r.value.Valid() && r.value.users == t.users && r.value.items == t.items
  {
    match (IndexOf(t.users, user), IndexOf(t.items, item))
    case (Some(ui), Some(ii)) =>
      var row := t.cells[ui];
      Ok(SetCell(t, ui, ii, NewQ(row[ii], rating, lr, df, RowMax(row))))
    case _ => Err(KeyError)
  }

  /** A successful update writes the blend of the old cell with
      rating + discountFactor * (old row maximum) into the cell of the first
      row labelled `user` and the first column labelled `item`, and no other
      cell changes. */
  lemma UpdateWritesOneCell(t: Table, user: int, item: int, rating: real, lr: real, df: real)
    requires t.Valid() && user in t.users && item in t.items
    ensures var r := Update(t, user, item, rating, lr, df);
            var ui, ii := IndexOf(t.users, user).value, IndexOf(t.items, item).value;
            r.Ok? &&
            r.value.cells[ui][ii] == NewQ(t.cells[ui][ii], rating, lr, df, RowMax(t.cells[ui])) &&
            forall a, b :: 0 <= a < |t.users| && 0 <= b < |t.items| && (a != ui || b != ii) ==>
              r.value.cells[a][b] == t.cells[a][b]
  {
    var ui, ii := IndexOf(t.users, user).value, IndexOf(t.items, item).value;
    var row := t.cells[ui];
    var s := SetCell(t, ui, ii, NewQ(row[ii], rating, lr, df, RowMax(row)));
    assert Update(t, user, item, rating, lr, df) == Ok(s);
  }

  /** With a learning rate of 1 the updated cell is exactly the target
      rating + discountFactor * (old row maximum). */
  lemma UpdateFullRate(t: Table, user: int, item: int, rating: real, df: real)
    requires t.Valid() && user in t.users && item in t.items
    ensures var ui, ii := IndexOf(t.users, user).value, IndexOf(t.items, item).value;
            Update(t, user, item, rating, 1.0, df).value.cells[ui][ii] == rating + df * RowMax(t.cells[ui])
  {
    var ui, ii := IndexOf(t.users, user).value, IndexOf(t.items, item).value;
    UpdateWritesOneCell(t, user, item, rating, 1.0, df);
    NewQBlend(t.cells[ui][ii], rating, 1.0, df, RowMax(t.cells[ui]));
  }

  /** One update keeps a non-negative table non-negative. */
  lemma UpdateNonNegative(t: Table, user: int, item: int, rating: real, lr: real, df: real)
    requires t.Valid() && NonNegative(t)
    requires rating >= 0.0 && 0.0 < lr <= 1.0 && df >= 0.0
    requires Update(t, user, item, rating, lr, df).Ok?
    ensures NonNegative(Update(t, user, item, rating, lr, df).value)
  {
    var ui, ii := IndexOf(t.users, user).value, IndexOf(t.items, item).value;
    var row := t.cells[ui];
    UpdateWritesOneCell(t, user, item, rating, lr, df);
    NewQNonNegative(row[ii], rating, lr, df, RowMax(row));
  }

  /** `recommend_item`: the item of the user's row holding the row maximum,
      the first such column on ties; a KeyError for an unknown user and
      EmptyRow when the table has no items. */
  function RecommendItem(t: Table, user: int): (r: Result<int>)
    requires t.Valid()
    ensures user !in t.users ==> r == Err(KeyError)
    ensures user in t.users && |t.items| == 0 ==> r == Err(EmptyRow)
    ensures r.Ok? <==> user in t.users && |t.items| > 0
    ensures r.Ok? ==> r.value in t.items
  {
    match IndexOf(t.users, user)
    case None => Err(KeyError)
    case Some(ui) =>
      if |t.items| == 0 then Err(EmptyRow)
      else Ok(t.items[ArgMax(t.cells[ui])])
  }

  /** A recommendation is the label of the first column of the user's row
      that holds the row maximum. */
  lemma RecommendItemIsFirstMax(t: Table, user: int, k: int)
    requires t.Valid() && user in t.users && IsFirstMax(t.cells[IndexOf(t.users, user).value], k)
    ensures RecommendItem(t, user) == Ok(t.items[k])
  {
    FirstMaxUnique(t.cells[IndexOf(t.users, user).value], k);
  }

  /** On a table that is still all zero every recommendation is the first item. */
  lemma ZeroTableRecommendsFirstItem(users: seq<int>, items: seq<int>, user: int)
    requires user in users && |items| > 0
    ensures RecommendItem(InitialTable(users, items), user) == Ok(items[0])
  {
    var t := InitialTable(users, items);
    RecommendItemIsFirstMax(t, user, 0);
  }

  /** The Q-table as the trainer owns it: the labels are fixed when it is
      built and the cells of `q` are updated in place. `contents` is the
      table's meaning as a `Table` value. */
  class MutableTable {
    const users: seq<int>
    const items: seq<int>
    const q: array2<real>
    ghost var contents: Table

    ghost predicate Valid()
      reads this, q
    {
      q.Length0 == |users| && q.Length1 == |items| &&
      contents.Valid() && contents.users == users && contents.items == items &&
      forall i, j {:trigger q[i, j]} :: 0 <= i < |users| && 0 <= j < |items| ==> q[i, j] == contents.cells[i][j]
    }

    /** Row `i` of the table, read from the array. */
    function Row(i: nat): (row: seq<real>)
      requires Valid() && i < |users|
      reads this, q
      ensures row == contents.cells[i]
    {
      seq(q.Length1, j requires 0 <= j < q.Length1 reads q => q[i, j])
    }

    /** `initialize_q_table`: a fresh table of zeros over the given labels. */
    constructor (users: seq<int>, items: seq<int>)
      ensures Valid() && fresh(q)
      ensures contents == InitialTable(users, items)
    {
      this.users := users;
      this.items := items;
      q := new real[|users|, |items|]((i, j) => 0.0);
      contents := InitialTable(users, items);
    }

    /** `update_q_value`, in place: the new contents are those `Update`
        describes, and nothing changes when it reports a KeyError. */
    method UpdateQValue(user: int, item: int, rating: real, lr: real, df: real) returns (status: Status)
      requires Valid()
      modifies this, q
      ensures Valid()
      ensures match Update(old(contents), user, item, rating, lr, df)
              case Ok(t) => status == Pass && contents == t
              case Err(e) => status == Fail(e) && contents == old(contents)
    {
      var ui, ii := IndexOf(users, user), IndexOf(items, item);
      if ui.None? || ii.None? {
        return Fail(KeyError);
      }
      var currentQ := q[ui.value, ii.value];
      var maxFutureQ := RowMax(Row(ui.value));
      q[ui.value, ii.value] := NewQ(currentQ, rating, lr, df, maxFutureQ);
      contents := Update(contents, user, item, rating, lr, df).value;
      status := Pass;
    }

    /** `recommend_item` on the table in place: the recommendation
        `RecommendItem` gives for the current contents. */
    method Recommend(user: int) returns (r: Result<int>)
      requires Valid()
      ensures r == RecommendItem(contents, user)
    {
      var ui := IndexOf(users, user);
      if ui.None? {
        return Err(KeyError);
      } else if |items| == 0 {
        return Err(EmptyRow);
      }
      r := Ok(items[ArgMax(Row(ui.value))]);
    }
  }
}
