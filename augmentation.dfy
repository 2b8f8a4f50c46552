/** The row-generation pipeline of the service: parse the model's reply into the
    synthetic table, try to load the original dataset of the chosen catalog, copy the
    original's column labels onto the synthetic table when the column counts agree,
    and append the synthetic rows to a non-empty original. The reply and the loaders
    are parameters: the model call, the catalogs and pandas' readers are outside the
    model. */
module Augmentation {
  import opened Wrappers
  import opened Text
  import opened Tables
  import opened ResponseParser
  import opened CatalogUrls
  import opened KaggleLoader

  /** What the original-dataset step yields for `url`: `hfLoad(id)` stands for
      `load_dataset(id, split="train")` put into a DataFrame (`None`: it raised), the
      Kaggle loader for `load_kaggle_dataset_csv`; any exception either raises is a
      `Failed`. The HuggingFace substring is tested first, the identifier is extracted
      from the URL, and a URL naming neither catalog loads nothing. */
  function LoadFor(url: string, hfLoad: string -> Option<Table>,
                   kaggleDownload: string -> Option<seq<string>>,
                   readCsv: (string, string) -> Option<Table>): (load: LoadResult)
    ensures Contains(url, HuggingFaceMarker) ==> load == Attempt(hfLoad(HuggingFaceId(url)))
    ensures !Contains(url, HuggingFaceMarker) && Contains(url, KaggleMarker) ==>
      load == KaggleLoad(KaggleRef(url), kaggleDownload, readCsv)
    ensures load == NotAttempted <==> !Contains(url, HuggingFaceMarker) && !Contains(url, KaggleMarker)
  {
    match CatalogOf(url)
    case Some(HuggingFace) => Attempt(hfLoad(HuggingFaceId(url)))
    case Some(Kaggle) => KaggleLoad(KaggleRef(url), kaggleDownload, readCsv)
    case None => NotAttempted
  }

  /** The original-dataset step of `generate_csv_data`, as the branches of the code
      take it; its outcome is the one `LoadFor` describes. */
  method LoadOriginal(url: string, hfLoad: string -> Option<Table>,
                      kaggleDownload: string -> Option<seq<string>>,
                      readCsv: (string, string) -> Option<Table>)
    returns (load: LoadResult)
    ensures load == LoadFor(url, hfLoad, kaggleDownload, readCsv)
  {
    if Contains(url, HuggingFaceMarker) {
      load := Attempt(hfLoad(HuggingFaceId(url)));
    } else if Contains(url, KaggleMarker) {
      load := LoadKaggleDatasetCsv(KaggleRef(url), kaggleDownload, readCsv);
    } else {
      load := NotAttempted;
    }
  }

  /** Schema alignment and merge: `original_df` is the loaded table or stays empty; the
      synthetic table takes the original's labels exactly when the original loaded with
      the same column count, and keeps its rows and column count either way; a non-empty
      original comes first in the combined table, then the synthetic rows, under the
      original's labels and column count when the column counts agree; when the original
      is empty, including after a failed or skipped load, the combined table is the
      synthetic table. */
  method AlignAndMerge(synthetic: Table, load: LoadResult) returns (labelled: Table, combined: Table)
    ensures labelled.rows == synthetic.rows && labelled.width == synthetic.width
    ensures labelled.header ==
      if load.Loaded? && load.table.width == synthetic.width then load.table.header else synthetic.header
    ensures var original := Original(load);
      NonEmpty(original) ==>
        && combined.rows == original.rows + labelled.rows
        && |combined.rows| == |original.rows| + |labelled.rows|
        && (original.width == synthetic.width ==>
              combined.header == original.header && combined.width == synthetic.width)
    ensures !NonEmpty(Original(load)) ==> combined == labelled
    ensures !load.Loaded? ==> labelled == synthetic && combined == synthetic
  {
    labelled := synthetic;
    var original := EmptyTable;
    if load.Loaded? {
      original := load.table;
      if labelled.width == original.width {
        labelled := labelled.(header := original.header);
      }
    }
    if NonEmpty(original) {
      combined := Concat(original, labelled);
    } else {
      combined := labelled;
    }
  }

  /** `generate_csv_data` from the model's reply on: returns the synthetic table and the
      combined table that the service serialises to CSV. The synthetic rows and column
      count come from the parse, and the labels are copied from the original exactly
      when it loaded with the same column count. */
  method GenerateCsvData(url: string, rowCount: int, reply: string,
                         hfLoad: string -> Option<Table>,
                         kaggleDownload: string -> Option<seq<string>>,
                         readCsv: (string, string) -> Option<Table>)
    returns (synthetic: Table, combined: Table)
    ensures synthetic.rows == ParseRows(reply, rowCount)
    ensures synthetic.width == Width(synthetic.rows)
    ensures var load := LoadFor(url, hfLoad, kaggleDownload, readCsv);
      synthetic.header == if load.Loaded? && load.table.width == synthetic.width then load.table.header else None
    ensures var original := Original(LoadFor(url, hfLoad, kaggleDownload, readCsv));
      && (NonEmpty(original) ==> combined.rows == original.rows + synthetic.rows)
      && (NonEmpty(original) && original.width == synthetic.width ==>
            combined.header == original.header && combined.width == synthetic.width)
      && (!NonEmpty(original) ==> combined == synthetic)
  {
    var parsed := FromRows(ParseRows(reply, rowCount));
    var load := LoadOriginal(url, hfLoad, kaggleDownload, readCsv);
    synthetic, combined := AlignAndMerge(parsed, load);
  }

  /** A synthetic table has no columns exactly when it has no rows, and otherwise at
      least two, so an original without columns is labelled onto it only when the
      reply held no comma-holding line to keep. */
  lemma SyntheticWidth(reply: string, rowCount: int)
    ensures var rows := ParseRows(reply, rowCount);
      (Width(rows) == 0 <==> rows == []) && (rows != [] ==> Width(rows) >= 2)
  {
    var rows := ParseRows(reply, rowCount);
    if rows != [] {
      assert |rows[0]| >= 2;
    }
  }
}
