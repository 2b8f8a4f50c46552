/** The dataset URLs of the two catalogs: building a URL from a catalog identifier,
    getting the identifier back from a URL, and telling which catalog a URL names. */
module CatalogUrls {
  import opened Wrappers
  import opened Text

  const KagglePrefix := "https://www.kaggle.com/datasets/"
  const HuggingFacePrefix := "https://huggingface.co/datasets/"

  /** The substrings by which the pipeline recognises a catalog's URL. */
  const KaggleMarker := "kaggle.com/datasets/"
  const HuggingFaceMarker := "huggingface.co/datasets/"

  datatype Catalog = Kaggle | HuggingFace

  /** The URL a Kaggle search result carries for the dataset `ref` ("owner/slug"); it
      holds the marker the pipeline looks for. */
  function KaggleUrl(ref: string): (url: string)
    ensures Contains(url, KaggleMarker)
  {
    var url := KagglePrefix + ref;
    assert url[12..12 + |KaggleMarker|] == KaggleMarker;
    ContainsAt(url, KaggleMarker, 12);
    url
  }

  /** The URL a HuggingFace search result carries for the dataset `id`; it holds the
      marker the pipeline looks for. */
  function HuggingFaceUrl(id: string): (url: string)
    ensures Contains(url, HuggingFaceMarker)
  {
    var url := HuggingFacePrefix + id;
    assert url[8..8 + |HuggingFaceMarker|] == HuggingFaceMarker;
    ContainsAt(url, HuggingFaceMarker, 8);
    url
  }

  /** `url.replace(prefix, "").strip("/")`: never starts or ends with a slash. */
  function ExtractId(url: string, prefix: string): (id: string)
    requires prefix != []
    ensures id != [] ==> id[0] != '/' && id[|id| - 1] != '/'
  {
    StripSlashes(RemoveAll(url, prefix))
  }

  function KaggleRef(url: string): string {
    ExtractId(url, KagglePrefix)
  }

  function HuggingFaceId(url: string): string {
    ExtractId(url, HuggingFacePrefix)
  }

  /** The branch the pipeline takes for `url`: HuggingFace is tested first, so a URL
      naming both catalogs takes the HuggingFace branch. */
  function CatalogOf(url: string): (c: Option<Catalog>)
    ensures c == Some(HuggingFace) <==> Contains(url, HuggingFaceMarker)
    ensures c == Some(Kaggle) <==> Contains(url, KaggleMarker) && !Contains(url, HuggingFaceMarker)
    ensures c == None <==> !Contains(url, KaggleMarker) && !Contains(url, HuggingFaceMarker)
  {
    if Contains(url, HuggingFaceMarker) then Some(HuggingFace)
    else if Contains(url, KaggleMarker) then Some(Kaggle)
    else None
  }

  /** An identifier a builder can take and the extractor give back: no slash at either
      end and no copy of the catalog's prefix inside. */
  predicate PlainId(id: string, prefix: string) {
    && (id != [] ==> id[0] != '/' && id[|id| - 1] != '/')
    && !Contains(id, prefix)
  }

  lemma ExtractAfterPrefix(prefix: string, id: string)
    requires prefix != [] && PlainId(id, prefix)
    ensures ExtractId(prefix + id, prefix) == id
  {
    RemoveAllLeading(prefix, id);
    RemoveAllAbsent(id, prefix);
    TrimKeeps(id, IsSlash);
  }

  /** Extracting the reference from a built Kaggle URL gives the reference back. */
  lemma KaggleRoundTrip(ref: string)
    requires PlainId(ref, KagglePrefix)
    ensures KaggleRef(KaggleUrl(ref)) == ref
  {
    ExtractAfterPrefix(KagglePrefix, ref);
  }

  /** Extracting the identifier from a built HuggingFace URL gives the identifier back. */
  lemma HuggingFaceRoundTrip(id: string)
    requires PlainId(id, HuggingFacePrefix)
    ensures HuggingFaceId(HuggingFaceUrl(id)) == id
  {
    ExtractAfterPrefix(HuggingFacePrefix, id);
  }

  /** Every built HuggingFace URL takes the HuggingFace branch. */
  lemma HuggingFaceUrlDispatch(id: string)
    ensures CatalogOf(HuggingFaceUrl(id)) == Some(HuggingFace)
  {
  }

  /** Only the first character of the Kaggle prefix is an 'h'. */
  lemma KagglePrefixHasOneH(i: nat)
    requires 0 < i < |KagglePrefix|
    ensures KagglePrefix[i] != 'h'
  {
  }

  /** The HuggingFace marker does not start a Kaggle URL. */
  lemma KaggleUrlStartsWithoutMarker(ref: string)
    ensures KaggleUrl(ref)[..|HuggingFaceMarker|] != HuggingFaceMarker
  {
    assert KaggleUrl(ref)[..|HuggingFaceMarker|][1] == 't';
  }

  /** A built Kaggle URL takes the Kaggle branch unless its reference itself holds the
      HuggingFace marker: the marker cannot start inside the Kaggle prefix. */
  lemma KaggleUrlDispatch(ref: string)
    requires !Contains(ref, HuggingFaceMarker)
    ensures CatalogOf(KaggleUrl(ref)) == Some(Kaggle)
  {
    var url := KaggleUrl(ref);
    var n := |KagglePrefix|;
    if Contains(url, HuggingFaceMarker) {
      var i := ContainsGivesPosition(url, HuggingFaceMarker);
      if i >= n {
        assert ref[i - n..i - n + |HuggingFaceMarker|] == url[i..i + |HuggingFaceMarker|];
        ContainsAt(ref, HuggingFaceMarker, i - n);
        assert false;
      } else if i == 0 {
        KaggleUrlStartsWithoutMarker(ref);
        assert false;
      } else {
        assert url[i] == HuggingFaceMarker[0];
        KagglePrefixHasOneH(i);
        assert false;
      }
    }
  }

  /** A Kaggle URL whose reference holds the HuggingFace marker takes the HuggingFace
      branch, since that substring is tested first. */
  lemma KaggleUrlNamingHuggingFace(ref: string)
    requires Contains(ref, HuggingFaceMarker)
    ensures CatalogOf(KaggleUrl(ref)) == Some(HuggingFace)
  {
    var i := ContainsGivesPosition(ref, HuggingFaceMarker);
    var url := KaggleUrl(ref);
    var n := |KagglePrefix|;
    assert url[n + i..n + i + |HuggingFaceMarker|] == ref[i..i + |HuggingFaceMarker|];
    ContainsAt(url, HuggingFaceMarker, n + i);
  }
}
