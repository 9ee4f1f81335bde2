/**
 * `parse_csv`: every data row of a CSV table becomes one sentence
 * `Row <k>: <col> is <val>, ... .`, and the sentences are joined by newlines.
 * Reading the file (pandas) is an oracle that yields the table with every cell
 * already turned into its text, or nothing when reading raises.
 */
module CsvParser {
  import opened Wrappers
  import opened Text

  /** Column names and rows of cell texts, as `pandas.read_csv` yields them. */
  datatype Table = Table(columns: seq<string>, rows: seq<seq<string>>)

  /** A DataFrame has one cell per column in every row. */
  predicate Rectangular(t: Table) {
    forall i :: 0 <= i < |t.rows| ==> |t.rows[i]| == |t.columns|
  }

  type Frame = t: Table | Rectangular(t) witness Table([], [])

  /** The per-cell texts `<col> is <val>` of one row, in column order. */
  function CellPhrases(columns: seq<string>, cells: seq<string>): (r: seq<string>)
    requires |cells| == |columns|
    ensures |r| == |columns|
    ensures forall j :: 0 <= j < |r| ==> r[j] == columns[j] + " is " + cells[j]
  {
    seq(|columns|, j requires 0 <= j < |columns| => columns[j] + " is " + cells[j])
  }

  /** The header of the sentence for the row numbered `k` (1-based). */
  function RowLabel(k: nat): string {
    "Row " + NatToString(k) + ": "
  }

  function RowSentence(k: nat, columns: seq<string>, cells: seq<string>): (r: string)
    requires |cells| == |columns|
    ensures |r| > |RowLabel(k)| && r[..|RowLabel(k)|] == RowLabel(k) && r[|r| - 1] == '.'
  {
    RowLabel(k) + Join(", ", CellPhrases(columns, cells)) + "."
  }

  /** One sentence per row, in file order; the i-th (0-based) is numbered i + 1. */
  function RowSentences(f: Frame): (r: seq<string>)
    ensures |r| == |f.rows|
  {
    seq(|f.rows|, i requires 0 <= i < |f.rows| => RowSentence(i + 1, f.columns, f.rows[i]))
  }

  /** What `parse_csv` returns for what reading produced: "" when reading raised. */
  function CsvText(read: Option<Frame>): string {
    match read
    case None => ""
    case Some(f) => Join("\n", RowSentences(f))
  }

  /** `parse_csv(file_path)`: the loop that appends one sentence per row. */
  method ParseCsv(filePath: string, readCsv: string -> Option<Frame>) returns (text: string)
    ensures text == CsvText(readCsv(filePath))
  {
    var read := readCsv(filePath);
    if read.None? {
      return "";
    }
    var df := read.value;
    var textList: seq<string> := [];
    var index := 0;
    while index < |df.rows|
      invariant index <= |df.rows|
      invariant textList == RowSentences(df)[..index]
    {
      var rowText := Join(", ", CellPhrases(df.columns, df.rows[index]));
      textList := textList + ["Row " + NatToString(index + 1) + ": " + rowText + "."];
      index := index + 1;
    }
    assert textList == RowSentences(df);
    text := Join("\n", textList);
  }

  /** No column name and no cell holds a line break. */
  predicate SingleLineCells(f: Frame) {
    && (forall j :: 0 <= j < |f.columns| ==> '\n' !in f.columns[j])
    && (forall i, j :: 0 <= i < |f.rows| && 0 <= j < |f.columns| ==> '\n' !in f.rows[i][j])
  }

  lemma RowSentenceSingleLine(f: Frame, i: nat)
    requires SingleLineCells(f) && i < |f.rows|
    ensures '\n' !in RowSentences(f)[i]
  {
    var phrases := CellPhrases(f.columns, f.rows[i]);
    forall j | 0 <= j < |phrases| ensures '\n' !in phrases[j] {
      assert '\n' !in f.columns[j] && '\n' !in f.rows[i][j];
    }
    JoinAvoids(", ", phrases, '\n');
    var digits := NatToString(i + 1);
    assert '\n' !in digits by {
      forall k | 0 <= k < |digits| ensures digits[k] != '\n' {
        assert '0' <= digits[k] <= '9';
      }
    }
  }

  /**
   * When no cell spans lines, the lines of the text are exactly the row
   * sentences, so line k (1-based) starts with `Row k: `.
   */
  lemma CsvLines(f: Frame)
    requires SingleLineCells(f) && |f.rows| > 0
    ensures Split(CsvText(Some(f)), '\n') == RowSentences(f)
    ensures forall k :: 1 <= k <= |f.rows| ==>
      RowSentences(f)[k - 1][..|RowLabel(k)|] == RowLabel(k)
  {
    var lines := RowSentences(f);
    forall i | 0 <= i < |lines| ensures '\n' !in lines[i] {
      RowSentenceSingleLine(f, i);
    }
    SplitJoin(lines, '\n');
  }

  /** A table without data rows gives the empty text, as a failed read does. */
  lemma NoRowsNoText(f: Frame)
    requires f.rows == []
    ensures CsvText(Some(f)) == CsvText(None) == ""
  {
  }
}
