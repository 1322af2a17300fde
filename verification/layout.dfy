/** The table layout of `process_text_and_create_excel`: the column order,
    the projection of the records onto the columns that occur in them, and
    the leading 1-based `S.No` column. The spreadsheet writer itself is not
    modelled; `Table` is what it would be handed. */
module Layout {
  import opened Common
  import Prompt

  /** Python's `list.insert(i, x)`: a negative index counts from the end and
      an index past either end is clamped to it. */
  function ListInsert<T>(xs: seq<T>, i: int, x: T): (r: seq<T>)
    ensures |r| == |xs| + 1
    ensures var p := InsertPosition(|xs|, i); r[p] == x && r[..p] == xs[..p] && r[p + 1..] == xs[p..]
  {
    var p := InsertPosition(|xs|, i);
    xs[..p] + [x] + xs[p..]
  }

  function InsertPosition(n: nat, i: int): (p: nat)
    ensures p <= n
  {
    if i < 0 then (if n + i < 0 then 0 else n + i)
    else if i > n then n
    else i
  }

  /** The message of the `ValueError` that `list.remove` raises. */
  const NotInListMessage: string := "list.remove(x): x not in list"

  /** Where the first occurrence of `x` sits. */
  function FirstIndex<T(==)>(xs: seq<T>, x: T): (k: nat)
    requires x in xs
    ensures k < |xs| && xs[k] == x && x !in xs[..k]
  {
    if xs[0] == x then 0
    else
      var k := FirstIndex(xs[1..], x);
      assert xs[..k + 1] == [xs[0]] + xs[1..][..k];
      k + 1
  }

  /** Python's `list.remove(x)`: drops the first occurrence, or raises
      `ValueError` when there is none. */
  function ListRemove<T(==)>(xs: seq<T>, x: T): (r: Result<seq<T>>)
    ensures r.Err? <==> x !in xs
    ensures r.Err? ==> r.message == NotInListMessage
    ensures r.Ok? ==> exists k :: 0 <= k < |xs| && xs[k] == x && x !in xs[..k] &&
                                  r.value == xs[..k] + xs[k + 1..]
  {
    if x !in xs then Err(NotInListMessage)
    else
      var k := FirstIndex(xs, x);
      Ok(xs[..k] + xs[k + 1..])
  }

  /** The ten columns `process_text_and_create_excel` lists before adjusting for the option count. */
  const BaseColumns: seq<string> :=
    ["question", "option_a", "option_b", "option_c", "option_d",
     "correct_answer", "explanation", "topic", "chapter", "subject"]

  /** `insert(4, "option_e")` in five-option mode, `remove("option_e")`
      otherwise, exactly as `process_text_and_create_excel` does. */
  function ColumnOrder(numOptions: int): Result<seq<string>>
  {
    if numOptions == 5 then Ok(ListInsert(BaseColumns, 4, "option_e"))
    else ListRemove(BaseColumns, "option_e")
  }

  /** The column order the five-option mode actually produces: `option_e`
      lands before `option_d`. */
  const FiveOptionColumns: seq<string> :=
    ["question", "option_a", "option_b", "option_c", "option_e", "option_d",
     "correct_answer", "explanation", "topic", "chapter", "subject"]

  lemma ColumnOrderAsWritten(numOptions: int)
    ensures numOptions == 5 ==> ColumnOrder(numOptions) == Ok(FiveOptionColumns)
    ensures numOptions != 5 ==> ColumnOrder(numOptions) == Err(NotInListMessage)
  {
    if numOptions != 5 {
      assert "option_e" !in BaseColumns;
    } else {
      assert BaseColumns[..4] + ["option_e"] + BaseColumns[4..] == FiveOptionColumns;
    }
  }

  /** True when some record has the column, i.e. pandas made it a column of the
      frame built from the records. */
  predicate Occurs(col: string, records: seq<Record>) {
    exists i :: 0 <= i < |records| && col in records[i]
  }

  /** `xs` is `ys` with some elements left out, the rest in their order. */
  predicate IsSubsequence<T(==)>(xs: seq<T>, ys: seq<T>)
    decreases |ys|
  {
    if |xs| == 0 then true
    else if |ys| == 0 then false
    else if xs[0] == ys[0] then IsSubsequence(xs[1..], ys[1..])
    else IsSubsequence(xs, ys[1..])
  }

  /** Prepending an element keeps a subsequence a subsequence. */
  lemma {:induction false} SubsequenceCons<T>(xs: seq<T>, ys: seq<T>, y: T)
    requires IsSubsequence(xs, ys)
    ensures IsSubsequence(xs, [y] + ys)
    decreases |ys|, 1
  {
    if |xs| > 0 && xs[0] == y {
      SubsequenceDropHead(xs, ys);
      assert ([y] + ys)[1..] == ys;
    } else {
      assert ([y] + ys)[1..] == ys;
    }
  }

  /** Dropping the first element of a subsequence keeps it a subsequence. */
  lemma {:induction false} SubsequenceDropHead<T>(xs: seq<T>, ys: seq<T>)
    requires |xs| > 0 && IsSubsequence(xs, ys)
    ensures IsSubsequence(xs[1..], ys)
    decreases |ys|, 0
  {
    if xs[0] == ys[0] {
      SubsequenceCons(xs[1..], ys[1..], ys[0]);
    } else {
      SubsequenceDropHead(xs, ys[1..]);
      SubsequenceCons(xs[1..], ys[1..], ys[0]);
    }
    assert [ys[0]] + ys[1..] == ys;
  }

  /** `[col for col in column_order if col in df.columns]`. */
  function ExistingColumns(order: seq<string>, records: seq<Record>): (cols: seq<string>)
    ensures IsSubsequence(cols, order)
    ensures forall c :: c in cols <==> c in order && Occurs(c, records)
  {
    if |order| == 0 then []
    else if Occurs(order[0], records) then [order[0]] + ExistingColumns(order[1..], records)
    else ExistingColumns(order[1..], records)
  }

  /** One spreadsheet cell: the row number, a record's text, or the gap pandas
      fills in when a record lacks a column. */
  datatype Cell = Number(n: int) | Text(s: string) | Blank

  datatype Table = Table(header: seq<string>, rows: seq<seq<Cell>>)

  const SerialColumn: string := "S.No"

  function CellOf(rec: Record, col: string): Cell {
    if col in rec then Text(rec[col]) else Blank
  }

  function ProjectRow(cols: seq<string>, rec: Record): (row: seq<Cell>)
    ensures |row| == |cols|
    ensures forall j :: 0 <= j < |cols| ==> row[j] == CellOf(rec, cols[j])
  {
    seq(|cols|, j requires 0 <= j < |cols| => CellOf(rec, cols[j]))
  }

  /** `df[existing_columns]` followed by `df.insert(0, "S.No", range(1, n + 1))`. */
  function Tabulate(order: seq<string>, records: seq<Record>): (t: Table)
    ensures t.header == [SerialColumn] + ExistingColumns(order, records)
    ensures |t.rows| == |records|
    ensures forall i :: 0 <= i < |records| ==>
              |t.rows[i]| == |t.header| && t.rows[i][0] == Number(i + 1) &&
              t.rows[i][1..] == ProjectRow(ExistingColumns(order, records), records[i])
  {
    var cols := ExistingColumns(order, records);
    Table([SerialColumn] + cols,
          seq(|records|, i requires 0 <= i < |records| => [Number(i + 1)] + ProjectRow(cols, records[i])))
  }

  /** Every field of a record whose name is in the column order survives in its
      row, under its own column; every other field is dropped. */
  lemma ProjectionKeepsListedFields(order: seq<string>, records: seq<Record>, i: nat, key: string)
    requires i < |records| && key in records[i]
    ensures key in order ==>
              exists j :: 1 <= j < |Tabulate(order, records).header| &&
                          Tabulate(order, records).header[j] == key &&
                          Tabulate(order, records).rows[i][j] == Text(records[i][key])
    ensures key !in order && key != SerialColumn ==> key !in Tabulate(order, records).header
  {
    var t := Tabulate(order, records);
    var cols := ExistingColumns(order, records);
    if key in order {
      var j := KeptColumn(order, records, i, key);
      RowCell(order, records, i, j);
      assert t.header[j + 1] == key;
    }
  }

  /** A listed field present in some record is kept, at some position. */
  lemma KeptColumn(order: seq<string>, records: seq<Record>, i: nat, key: string) returns (j: nat)
    requires i < |records| && key in records[i] && key in order
    ensures j < |ExistingColumns(order, records)| && ExistingColumns(order, records)[j] == key
  {
    var cols := ExistingColumns(order, records);
    assert Occurs(key, records);
    assert key in cols;
    j :| 0 <= j < |cols| && cols[j] == key;
  }

  /** The cell of row `i` under kept column `j`. */
  lemma RowCell(order: seq<string>, records: seq<Record>, i: nat, j: nat)
    requires i < |records| && j < |ExistingColumns(order, records)|
    ensures Tabulate(order, records).rows[i][j + 1] ==
            CellOf(records[i], ExistingColumns(order, records)[j])
  {
    var t := Tabulate(order, records);
    assert t.rows[i][j + 1] == t.rows[i][1..][j];
  }

  /** The evidently intended column order: `option_e` right after `option_d`
      in five-option mode, and the base list unchanged otherwise. Only the
      corrected tail of the pipeline uses it. */
  function IntendedColumnOrder(numOptions: int): (r: Result<seq<string>>)
    ensures r.Ok?
  {
    if numOptions == 5 then Ok(ListInsert(BaseColumns, 5, "option_e")) else Ok(BaseColumns)
  }

  /** A column named `option_` followed by something. */
  predicate IsOptionColumn(c: string) {
    |c| >= |Prompt.OptionPrefix| && c[..|Prompt.OptionPrefix|] == Prompt.OptionPrefix
  }

  lemma NotOptionColumn(c: string)
    requires |c| == 0 || c[0] != 'o'
    ensures !IsOptionColumn(c)
  {
    if |c| >= |Prompt.OptionPrefix| {
      assert c[..|Prompt.OptionPrefix|][0] != Prompt.OptionPrefix[0];
    }
  }

  /** The option columns of a column order, in their order. */
  function OptionColumns(cols: seq<string>): seq<string>
  {
    if |cols| == 0 then []
    else if IsOptionColumn(cols[0]) then [cols[0]] + OptionColumns(cols[1..])
    else OptionColumns(cols[1..])
  }

  lemma {:induction false} OptionColumnsConcat(a: seq<string>, b: seq<string>)
    ensures OptionColumns(a + b) == OptionColumns(a) + OptionColumns(b)
    decreases |a|
  {
    if |a| == 0 {
      assert a + b == b;
    } else {
      assert (a + b)[1..] == a[1..] + b;
      OptionColumnsConcat(a[1..], b);
    }
  }

  lemma {:induction false} OptionColumnsAll(xs: seq<string>)
    requires forall i :: 0 <= i < |xs| ==> IsOptionColumn(xs[i])
    ensures OptionColumns(xs) == xs
    decreases |xs|
  {
    if |xs| > 0 {
      OptionColumnsAll(xs[1..]);
    }
  }

  lemma {:induction false} OptionColumnsNone(xs: seq<string>)
    requires forall i :: 0 <= i < |xs| ==> !IsOptionColumn(xs[i])
    ensures OptionColumns(xs) == []
    decreases |xs|
  {
    if |xs| > 0 {
      OptionColumnsNone(xs[1..]);
    }
  }

  /** A column order made of `question`, some option columns and the five
      trailing columns has those option columns as its options. */
  lemma OptionColumnsOfLayout(opts: seq<string>)
    requires forall i :: 0 <= i < |opts| ==> IsOptionColumn(opts[i])
    ensures OptionColumns(["question"] + opts + ["correct_answer", "explanation", "topic", "chapter", "subject"]) == opts
  {
    var head := ["question"];
    var tail := ["correct_answer", "explanation", "topic", "chapter", "subject"];
    var cols := head + opts + tail;
    OptionColumnsConcat(head + opts, tail);
    OptionColumnsConcat(head, opts);
    SharedColumnsHaveNoOptions();
    OptionColumnsAll(opts);
    assert OptionColumns(cols) == OptionColumns(head + opts) + OptionColumns(tail);
    assert OptionColumns(head + opts) == [] + opts;
  }

  lemma SharedColumnsHaveNoOptions()
    ensures OptionColumns(["question"]) == []
    ensures OptionColumns(["correct_answer", "explanation", "topic", "chapter", "subject"]) == []
  {
    SharedColumnsAreNotOptions();
    OptionColumnsNone(["question"]);
    OptionColumnsNone(["correct_answer", "explanation", "topic", "chapter", "subject"]);
  }

  lemma OptionKeysAreOptionColumns(opts: seq<string>)
    requires forall i :: 0 <= i < |opts| ==> |opts[i]| == 8 && opts[i][..7] == "option_"
    ensures forall i :: 0 <= i < |opts| ==> IsOptionColumn(opts[i])
  {
  }

  /** Keeping the option columns preserves the subsequence relation. */
  lemma {:induction false} OptionColumnsMonotone(xs: seq<string>, ys: seq<string>)
    requires IsSubsequence(xs, ys)
    ensures IsSubsequence(OptionColumns(xs), OptionColumns(ys))
    decreases |ys|
  {
    if |xs| == 0 {
    } else if xs[0] == ys[0] {
      OptionColumnsMonotone(xs[1..], ys[1..]);
    } else {
      OptionColumnsMonotone(xs, ys[1..]);
      if IsOptionColumn(ys[0]) {
        SubsequenceCons(OptionColumns(xs), OptionColumns(ys[1..]), ys[0]);
      }
    }
  }

  /** The non-option columns every order shares. */
  lemma SharedColumnsAreNotOptions()
    ensures !IsOptionColumn("question") && !IsOptionColumn("correct_answer")
    ensures !IsOptionColumn("explanation") && !IsOptionColumn("topic")
    ensures !IsOptionColumn("chapter") && !IsOptionColumn("subject")
  {
    NotOptionColumn("question");
    NotOptionColumn("correct_answer");
    NotOptionColumn("explanation");
    NotOptionColumn("topic");
    NotOptionColumn("chapter");
    NotOptionColumn("subject");
  }

  /** As written, the five-option columns list the options out of the order
      in which the prompt asks for them. */
  lemma FiveOptionColumnsMisordered()
    ensures OptionColumns(FiveOptionColumns) == ["option_a", "option_b", "option_c", "option_e", "option_d"]
    ensures OptionColumns(FiveOptionColumns) != Prompt.OptionKeys(5)
  {
    Prompt.OptionKeysSpelledOut(5);
    var opts := ["option_a", "option_b", "option_c", "option_e", "option_d"];
    OptionKeysAreOptionColumns(opts);
    OptionColumnsOfLayout(opts);
    assert FiveOptionColumns == ["question"] + opts + ["correct_answer", "explanation", "topic", "chapter", "subject"];
  }

  /** The intended order lists exactly the prompt's option keys, in letter
      order, and never fails. */
  lemma IntendedOptionColumnsMatchPrompt(numOptions: int)
    ensures OptionColumns(IntendedColumnOrder(numOptions).value) == Prompt.OptionKeys(numOptions)
  {
    Prompt.OptionKeysSpelledOut(numOptions);
    if numOptions == 5 {
      IntendedFiveOptionColumns();
    } else {
      BaseOptionColumns();
    }
  }

  lemma IntendedFiveOptionColumns()
    ensures OptionColumns(ListInsert(BaseColumns, 5, "option_e")) ==
            ["option_a", "option_b", "option_c", "option_d", "option_e"]
  {
    var opts := ["option_a", "option_b", "option_c", "option_d", "option_e"];
    OptionKeysAreOptionColumns(opts);
    OptionColumnsOfLayout(opts);
    assert ListInsert(BaseColumns, 5, "option_e") ==
           ["question"] + opts + ["correct_answer", "explanation", "topic", "chapter", "subject"];
  }

  lemma BaseOptionColumns()
    ensures OptionColumns(BaseColumns) == ["option_a", "option_b", "option_c", "option_d"]
  {
    var opts := ["option_a", "option_b", "option_c", "option_d"];
    OptionKeysAreOptionColumns(opts);
    OptionColumnsOfLayout(opts);
    assert BaseColumns ==
           ["question"] + opts + ["correct_answer", "explanation", "topic", "chapter", "subject"];
  }
}
