/** The Kaggle side of the original-dataset loader: the dataset archive is downloaded
    and unpacked into a temporary directory, and the first file of the directory
    listing whose name ends in ".csv" is read as the original table. */
module KaggleLoader {
  import opened Wrappers
  import opened Text
  import opened Tables

  const CsvExtension := ".csv"

  predicate IsCsvName(name: string) {
    EndsWith(name, CsvExtension)
  }

  /** The position of the first ".csv" name in a listing, if there is one. */
  function FirstCsvIndex(listing: seq<string>): (found: Option<nat>)
    ensures found.Some? ==>
      && found.value < |listing|
      && IsCsvName(listing[found.value])
      && forall j :: 0 <= j < found.value ==> !IsCsvName(listing[j])
    ensures found.None? ==> forall j :: 0 <= j < |listing| ==> !IsCsvName(listing[j])
  {
    if listing == [] then None
    else if IsCsvName(listing[0]) then Some(0)
    else
      match FirstCsvIndex(listing[1..])
      case None => None
      case Some(j) => Some(j + 1)
  }

  /** What loading the Kaggle dataset `ref` yields. `download(ref)` stands for
      authentication, download, unzip and the top-level directory listing, in listing
      order (`None`: one of them raised); `readCsv(ref, name)` for `pd.read_csv` on a
      file (`None`: it raised). A failed download is a failure; otherwise the file read
      is the first ".csv" name of the listing, and with no such name the result is the
      empty table. */
  function KaggleLoad(ref: string, download: string -> Option<seq<string>>,
                      readCsv: (string, string) -> Option<Table>): (load: LoadResult)
    ensures download(ref).None? ==> load == Failed
    ensures download(ref).Some? ==> var listing := download(ref).value;
      && (forall i :: 0 <= i < |listing| && IsCsvName(listing[i]) && (forall j :: 0 <= j < i ==> !IsCsvName(listing[j]))
            ==> load == Attempt(readCsv(ref, listing[i])))
      && ((forall j :: 0 <= j < |listing| ==> !IsCsvName(listing[j])) ==> load == Loaded(EmptyTable))
    ensures load != NotAttempted
  {
    match download(ref)
    case None => Failed
    case Some(listing) =>
      match FirstCsvIndex(listing)
      case None => Loaded(EmptyTable)
      case Some(i) => Attempt(readCsv(ref, listing[i]))
  }

  /** `load_kaggle_dataset_csv`: scans the listing and reads the first ".csv" file,
      returning from inside the loop; with no such file the result is `pd.DataFrame()`. */
  method LoadKaggleDatasetCsv(ref: string, download: string -> Option<seq<string>>,
                              readCsv: (string, string) -> Option<Table>)
    returns (result: LoadResult)
    ensures result == KaggleLoad(ref, download, readCsv)
  {
    var listing := download(ref);
    if listing.None? {
      return Failed;
    }
    var names := listing.value;
    var i := 0;
    while i < |names|
      invariant 0 <= i <= |names|
      invariant forall j :: 0 <= j < i ==> !IsCsvName(names[j])
    {
      if IsCsvName(names[i]) {
        return Attempt(readCsv(ref, names[i]));
      }
      i := i + 1;
    }
    return Loaded(EmptyTable);
  }
}
