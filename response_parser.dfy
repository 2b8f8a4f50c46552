/** Extraction of the synthetic rows from the language model's reply: strip the reply,
    split it into lines, keep the lines holding a comma, keep the last `rowCount` of
    those with Python's `[-row_count:]` slice, and split each kept line on commas. No
    quoting or escaping is recognised. */
module ResponseParser {
  import opened Text

  predicate HasComma(line: string) {
    ',' in line
  }

  /** `full_text.split("\n")` where `full_text` is the stripped reply. */
  function Lines(reply: string): seq<string> {
    Split(Strip(reply), '\n')
  }

  /** The comma-holding lines, in reply order. */
  function CsvLines(reply: string): seq<string> {
    Filter(Lines(reply), HasComma)
  }

  /** `[...][-row_count:]` over the comma-holding lines. */
  function SelectedLines(reply: string, rowCount: int): seq<string> {
    SliceFrom(CsvLines(reply), -rowCount)
  }

  /** The rows handed to `pd.DataFrame`: each selected line split on commas. Every row
      has at least two cells, and no cell holds a comma. */
  function ParseRows(reply: string, rowCount: int): (rows: seq<seq<string>>)
    ensures |rows| == |SelectedLines(reply, rowCount)|
    ensures forall i :: 0 <= i < |rows| ==> |rows[i]| >= 2
    ensures forall i, j :: 0 <= i < |rows| && 0 <= j < |rows[i]| ==> ',' !in rows[i][j]
  {
    var lines := SelectedLines(reply, rowCount);
    assert forall i :: 0 <= i < |lines| ==> HasComma(lines[i]);
    seq(|lines|, i requires 0 <= i < |lines| => Split(lines[i], ','))
  }

  /** Row `i` is the split of selected line `i`, and joining its cells with commas gives
      that line back exactly. */
  lemma RowsRoundTrip(reply: string, rowCount: int)
    ensures var rows := ParseRows(reply, rowCount); var lines := SelectedLines(reply, rowCount);
      forall i :: 0 <= i < |rows| ==> rows[i] == Split(lines[i], ',') && Join(rows[i], ',') == lines[i]
  {
    var lines := SelectedLines(reply, rowCount);
    forall i | 0 <= i < |lines|
      ensures Join(Split(lines[i], ','), ',') == lines[i]
    {
      JoinSplit(lines[i], ',');
    }
  }

  /** Every selected line is a line of the stripped reply holding a comma, and joining
      the reply's lines with newlines gives back the stripped reply. */
  lemma SelectedLinesComeFromReply(reply: string, rowCount: int)
    ensures Join(Lines(reply), '\n') == Strip(reply)
    ensures var lines := SelectedLines(reply, rowCount);
      forall i :: 0 <= i < |lines| ==> lines[i] in Lines(reply) && HasComma(lines[i]) && '\n' !in lines[i]
  {
    JoinSplit(Strip(reply), '\n');
  }

  /** With a positive row count the rows come from the last min(rowCount, m) of the m
      comma-holding lines, in reply order: fewer lines give a shorter table, never
      padding and never an error. */
  lemma TrailingSelection(reply: string, rowCount: int)
    requires rowCount > 0
    ensures var m := |CsvLines(reply)|; var k := Min(rowCount, m);
      && SelectedLines(reply, rowCount) == CsvLines(reply)[m - k..]
      && |ParseRows(reply, rowCount)| == k
      && forall i :: 0 <= i < k ==> ParseRows(reply, rowCount)[i] == Split(CsvLines(reply)[m - k + i], ',')
  {
    TailSlicePositive(CsvLines(reply), rowCount);
  }

  /** A row count of 0 keeps every comma-holding line, since `[-0:]` is `[0:]`. */
  lemma ZeroRowCountKeepsAll(reply: string)
    ensures SelectedLines(reply, 0) == CsvLines(reply)
    ensures |ParseRows(reply, 0)| == |CsvLines(reply)|
  {
    TailSliceZero(CsvLines(reply));
  }

  /** A negative row count -d drops the first d comma-holding lines, since `[d:]`. */
  lemma NegativeRowCountDropsPrefix(reply: string, rowCount: int)
    requires rowCount < 0
    ensures SelectedLines(reply, rowCount) == CsvLines(reply)[Min(-rowCount, |CsvLines(reply)|)..]
  {
    TailSliceNegative(CsvLines(reply), rowCount);
  }

  lemma SplitPair(a: string, b: string)
    requires ',' !in a && ',' !in b
    ensures Split(a + "," + b, ',') == [a, b]
  {
    SplitJoin([a, b], ',');
    assert Join([a, b], ',') == a + "," + b;
  }

  /** Three selected lines of two cells each parse into those cells. */
  lemma ThreePairRows(reply: string)
    requires SelectedLines(reply, 3) == ["A,1", "B,2", "C,3"]
    ensures ParseRows(reply, 3) == [["A", "1"], ["B", "2"], ["C", "3"]]
  {
    SplitPair("A", "1");
    SplitPair("B", "2");
    SplitPair("C", "3");
    assert "A" + "," + "1" == "A,1";
    assert "B" + "," + "2" == "B,2";
    assert "C" + "," + "3" == "C,3";
  }

  /** An introductory sentence holding a comma is left out when exactly the requested
      number of data lines follows it: a reply whose lines are such a sentence and
      "A,1", "B,2", "C,3" parses, for three rows, into the three data rows. */
  lemma IntroLineScenario(reply: string, intro: string)
    requires Lines(reply) == [intro, "A,1", "B,2", "C,3"]
    requires HasComma(intro)
    ensures ParseRows(reply, 3) == [["A", "1"], ["B", "2"], ["C", "3"]]
  {
    var lines := Lines(reply);
    assert HasComma(lines[1]) && HasComma(lines[2]) && HasComma(lines[3]);
    FilterKeepsAll(lines, HasComma);
    assert lines[1..] == ["A,1", "B,2", "C,3"];
    ThreePairRows(reply);
  }
}
