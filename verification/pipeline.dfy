/** The I/O-free part of `process_text_and_create_excel`: chunk the text,
    ask the service about every chunk, gather the records, and lay out the
    table, or report why there is none. What the service answers is given
    up front: for every chunk, the outcome of each of its attempts. */
module Pipeline {
  import opened Common
  import opened Chunker
  import opened Retry
  import opened Layout
  import Prompt

  const NoDataMessage: string := "No data was generated from the provided text."
  const ExcelErrorPrefix: string := "An error occurred while creating the Excel file: "

  /** The service answers every attempt of every chunk of `text`. */
  predicate Answers(text: string, responses: seq<seq<Attempt>>) {
    && |responses| == |Chunks(text, ChunkSize)|
    && forall k :: 0 <= k < |responses| ==> |responses[k]| == Retries
  }

  /** The records each chunk's call hands back, chunk by chunk. */
  function Generate(responses: seq<seq<Attempt>>): (results: seq<seq<Record>>)
    requires forall k :: 0 <= k < |responses| ==> |responses[k]| == Retries
  {
    seq(|responses|, k requires 0 <= k < |responses| => Call(responses[k]).records)
  }

  /** Everything from `if not all_data` on, for a given column-order outcome. */
  function AssembleWith(allData: seq<Record>, order: Result<seq<string>>): Result<Table> {
    if |allData| == 0 then Err(NoDataMessage)
    else match order
      case Err(e) => Err(ExcelErrorPrefix + e)
      case Ok(cols) => Ok(Tabulate(cols, allData))
  }

  /** The tail of `process_text_and_create_excel` as written: no data is an error; otherwise the
      column order of the option count decides, and outside five-option mode
      `remove("option_e")` raises, which surfaces as the Excel error. */
  function Assemble(allData: seq<Record>, numOptions: int): (r: Result<Table>)
    ensures r == Err(NoDataMessage) <==> |allData| == 0
    ensures |allData| > 0 && numOptions != 5 ==> r == Err(ExcelErrorPrefix + NotInListMessage)
    ensures |allData| > 0 && numOptions == 5 ==> r == Ok(Tabulate(FiveOptionColumns, allData))
  {
    ColumnOrderAsWritten(numOptions);
    MessagesDiffer();
    AssembleWith(allData, ColumnOrder(numOptions))
  }

  lemma MessagesDiffer()
    ensures ExcelErrorPrefix + NotInListMessage != NoDataMessage
  {
    assert |NoDataMessage| == 45;
  }

  /** The whole pipeline on a text, an option count and the service's answers. */
  function Run(text: string, numOptions: int, responses: seq<seq<Attempt>>): Result<Table>
    requires Answers(text, responses)
  {
    Assemble(Flatten(Generate(responses)), numOptions)
  }

  /** The loop of `process_text_and_create_excel`: one call per chunk, non-empty results appended. */
  method ProcessText(text: string, numOptions: int, responses: seq<seq<Attempt>>)
    returns (r: Result<Table>)
    requires Answers(text, responses)
    ensures r == Run(text, numOptions, responses)
  {
    var chunks := SplitText(text, ChunkSize);
    var allData: seq<Record> := [];
    var k := 0;
    while k < |chunks|
      invariant 0 <= k <= |chunks|
      invariant allData == Flatten(Generate(responses)[..k])
    {
      var chunkData, _ := CallWithRetry(responses[k]);
      FlattenSnoc(Generate(responses)[..k], chunkData);
      assert Generate(responses)[..k + 1] == Generate(responses)[..k] + [chunkData];
      if |chunkData| > 0 {
        allData := allData + chunkData;
      }
      k := k + 1;
    }
    assert Generate(responses)[..k] == Generate(responses);
    r := Assemble(allData, numOptions);
  }

  /** The no-data error comes exactly when no chunk's call yields a record,
      which covers the empty text, with no chunk at all. */
  lemma NoDataExactly(text: string, numOptions: int, responses: seq<seq<Attempt>>)
    requires Answers(text, responses)
    ensures Run(text, numOptions, responses) == Err(NoDataMessage) <==>
            forall k :: 0 <= k < |responses| ==> Call(responses[k]).records == []
    ensures |text| == 0 ==> Run(text, numOptions, responses) == Err(NoDataMessage)
  {
    var results := Generate(responses);
    FlattenEmpty(results);
    assert forall k :: 0 <= k < |results| ==> results[k] == Call(responses[k]).records;
  }

  /** Outside five-option mode no run ever produces a table. */
  lemma NoTableOutsideFiveOptions(text: string, numOptions: int, responses: seq<seq<Attempt>>)
    requires Answers(text, responses) && numOptions != 5
    ensures Run(text, numOptions, responses) == Err(NoDataMessage) ||
            Run(text, numOptions, responses) == Err(ExcelErrorPrefix + NotInListMessage)
    ensures (exists k :: 0 <= k < |responses| && Call(responses[k]).records != []) ==>
            Run(text, numOptions, responses) == Err(ExcelErrorPrefix + NotInListMessage)
  {
    NoDataExactly(text, numOptions, responses);
  }

  /** In five-option mode record `j` of chunk `k` becomes the row numbered one
      past the records of all earlier chunks plus `j`, with its fields laid out
      under the five-option columns: numbering runs on across chunks. */
  lemma NumberingAcrossChunks(text: string, responses: seq<seq<Attempt>>, k: nat, j: nat)
    requires Answers(text, responses)
    requires k < |responses| && j < |Call(responses[k]).records|
    ensures var r := Run(text, 5, responses);
            var before := |Flatten(Generate(responses)[..k])|;
            && r.Ok?
            && before + j < |r.value.rows|
            && r.value.rows[before + j][0] == Number(before + j + 1)
            && r.value.rows[before + j][1..] ==
                 ProjectRow(r.value.header[1..], Call(responses[k]).records[j])
  {
    var results := Generate(responses);
    assert results[k] == Call(responses[k]).records;
    FlattenIndex(results, k, j);
  }

  /** A chunk whose three attempts all raise adds nothing: the gathered records
      are those of the other chunks, in order. */
  lemma FailedChunkContributesNothing(text: string, responses: seq<seq<Attempt>>, k: nat)
    requires Answers(text, responses) && k < |responses|
    requires forall a :: 0 <= a < Retries ==> responses[k][a].Raised?
    ensures Flatten(Generate(responses)) ==
            Flatten(Generate(responses)[..k]) + Flatten(Generate(responses)[k + 1..])
  {
    var results := Generate(responses);
    AllRaisedGivesNothing(responses[k]);
    assert results[k] == [];
    SkipEmptyPart(results, k);
  }

  /** The tail of the pipeline with the intended column order: it never fails
      once there is data. */
  function AssembleIntended(allData: seq<Record>, numOptions: int): (r: Result<Table>)
    ensures r == Err(NoDataMessage) <==> |allData| == 0
    ensures |allData| > 0 ==> r == Ok(Tabulate(IntendedColumnOrder(numOptions).value, allData))
  {
    AssembleWith(allData, IntendedColumnOrder(numOptions))
  }

  /** With the intended order, a run with data always yields a table. Its
      option columns are the prompt's option keys that some record carries,
      in letter order; in five-option mode `option_e` follows `option_d`. */
  lemma IntendedRunSucceeds(text: string, numOptions: int, responses: seq<seq<Attempt>>)
    requires Answers(text, responses)
    requires exists k :: 0 <= k < |responses| && Call(responses[k]).records != []
    ensures var allData := Flatten(Generate(responses));
            var r := AssembleIntended(allData, numOptions);
            && r.Ok?
            && r.value.header == [SerialColumn] + ExistingColumns(IntendedColumnOrder(numOptions).value, allData)
            && IsSubsequence(OptionColumns(r.value.header[1..]), Prompt.OptionKeys(numOptions))
            && forall key :: key in Prompt.OptionKeys(numOptions) && Occurs(key, allData) ==>
                               key in r.value.header
  {
    NoDataExactly(text, numOptions, responses);
    var allData := Flatten(Generate(responses));
    var order := IntendedColumnOrder(numOptions).value;
    var r := AssembleIntended(allData, numOptions);
    IntendedOptionColumnsMatchPrompt(numOptions);
    assert r.value.header[1..] == ExistingColumns(order, allData);
    OptionColumnsMonotone(ExistingColumns(order, allData), order);
    forall key | key in Prompt.OptionKeys(numOptions) && Occurs(key, allData)
      ensures key in r.value.header
    {
      OptionKeyInIntendedOrder(numOptions, key);
      assert key in ExistingColumns(order, allData);
      assert key in r.value.header[1..];
    }
  }

  /** Every option key the prompt names is a column of the intended order. */
  lemma OptionKeyInIntendedOrder(numOptions: int, key: string)
    requires key in Prompt.OptionKeys(numOptions)
    ensures key in IntendedColumnOrder(numOptions).value
  {
    Prompt.OptionKeysSpelledOut(numOptions);
    var order := IntendedColumnOrder(numOptions).value;
    if numOptions == 5 {
      assert order == ListInsert(BaseColumns, 5, "option_e");
      assert order[5] == "option_e";
    }
    assert order[1] == "option_a" && order[2] == "option_b";
    assert order[3] == "option_c" && order[4] == "option_d";
  }
}
