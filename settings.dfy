/** The configuration constants the pipeline reads (utils/mysettings.py):
    the raw-data root, the table sending each normalizer's output to a
    combination bucket, and the lab-name search terms. */
module Settings {
  import opened Text

  /** `RAW_FOLDER_PATH`. */
  const RawFolderPath: string := "data/sales"

  /** `LOOKUP_COMBINE_PREPROCESS_FUNCTION`: normalizer name to bucket. */
  const CombineLookup: map<string, string> := map[
    "preprocess_labtrac_new" := "labtrac",
    "preprocess_labtrac_old" := "labtrac",
    "preprocess_transactor" := "transactor",
    "preprocess_leca" := "leca",
    "prep_transactor_passion_dental_design" := "transactor",
    "preprocess_leca_greatlab" := "great_lab",
    "preprocess_leca_transactor" := "leca"
  ]

  /** The bucket a normalizer's output goes to, `combine_lookup.get(name,
      "combine")`. */
  function Bucket(name: string): (b: string)
    ensures b == "combine" <==> name !in CombineLookup
  {
    if name in CombineLookup then CombineLookup[name] else "combine"
  }

  /** The two Labtrac layouts share a bucket, as do Transactor and Passion;
      Leca has its own. */
  lemma BucketsOfNormalizers()
    ensures Bucket("preprocess_labtrac_new") == Bucket("preprocess_labtrac_old") == "labtrac"
    ensures Bucket("preprocess_transactor") == Bucket("prep_transactor_passion_dental_design") == "transactor"
    ensures Bucket("preprocess_leca") == "leca"
  {
  }

  /** A name missing from the table falls back to "combine", a bucket no
      listed normalizer uses. */
  lemma UnknownNameFallsBack(name: string)
    requires name !in CombineLookup
    ensures Bucket(name) == "combine"
    ensures forall n :: n in CombineLookup ==> Bucket(n) != Bucket(name)
  {
  }

  /** `ALS_NAME_SEARCH_TERM`: lower-case fragments of the group's own lab
      names, written as two halves of 17, each in two parts. */
  const AlsNameSearchTerm: seq<string> := SearchTermsHead + SearchTermsTail

  const SearchTermsHead: seq<string> := HeadFront + HeadBack

  const HeadFront: seq<string> := [
    "leca",
    "ashford",
    "casterbridge",
    "dental technique",
    "cardiff ortho",
    "woodford",
    "dental excellence",
    "passion",
    "ceramics"
  ]

  const HeadBack: seq<string> := [
    "denture centre",
    "veus",
    "precedental",
    "ken poland",
    "bristol crown",
    "bristol cadcam",
    "bristol cad-cam",
    "iw dental"
  ]

  const SearchTermsTail: seq<string> := TailFront + TailBack

  const TailFront: seq<string> := [
    "ip milling",
    "reiner",
    "halo",
    "burke ortho",
    "dent 8",
    "dent8",
    "densign",
    "aesthetic world",
    "aplus"
  ]

  const TailBack: seq<string> := [
    "a plus",
    "oakview restorations",
    "oakview",
    "central dental",
    "central dental lab",
    "ceroplast",
    "european dental lab",
    "innovate"
  ]

  /** Every term of `terms` is free of capitals. */
  ghost predicate AllLower(terms: seq<string>)
  {
    forall k :: 0 <= k < |terms| ==> HasNoUpper(terms[k])
  }

  lemma AllLowerConcat(a: seq<string>, b: seq<string>)
    requires AllLower(a) && AllLower(b)
    ensures AllLower(a + b)
  {
    forall k | 0 <= k < |a + b| ensures HasNoUpper((a + b)[k]) {
      if k >= |a| {
        assert (a + b)[k] == b[k - |a|];
      }
    }
  }

  lemma HeadFrontIsLowerCase()
    ensures AllLower(HeadFront)
  {
    assert HasNoUpper("leca");
    assert HasNoUpper("ashford");
    assert HasNoUpper("casterbridge");
    assert HasNoUpper("dental technique");
    assert HasNoUpper("cardiff ortho");
    assert HasNoUpper("woodford");
    assert HasNoUpper("dental excellence");
    assert HasNoUpper("passion");
    assert HasNoUpper("ceramics");
  }

  lemma HeadBackIsLowerCase()
    ensures AllLower(HeadBack)
  {
    assert HasNoUpper("denture centre");
    assert HasNoUpper("veus");
    assert HasNoUpper("precedental");
    assert HasNoUpper("ken poland");
    assert HasNoUpper("bristol crown");
    assert HasNoUpper("bristol cadcam");
    assert HasNoUpper("bristol cad-cam");
    assert HasNoUpper("iw dental");
  }

  lemma TailFrontIsLowerCase()
    ensures AllLower(TailFront)
  {
    assert HasNoUpper("ip milling");
    assert HasNoUpper("reiner");
    assert HasNoUpper("halo");
    assert HasNoUpper("burke ortho");
    assert HasNoUpper("dent 8");
    assert HasNoUpper("dent8");
    assert HasNoUpper("densign");
    assert HasNoUpper("aesthetic world");
    assert HasNoUpper("aplus");
  }

  lemma TailBackIsLowerCase()
    ensures AllLower(TailBack)
  {
    assert HasNoUpper("a plus");
    assert HasNoUpper("oakview restorations");
    assert HasNoUpper("oakview");
    assert HasNoUpper("central dental");
    assert HasNoUpper("central dental lab");
    assert HasNoUpper("ceroplast");
    assert HasNoUpper("european dental lab");
    assert HasNoUpper("innovate");
  }

  /** Every search term is already lower case, so lower-casing the names it
      is matched against makes the match case-insensitive, and lower-casing
      the term itself would change nothing. */
  lemma SearchTermsAreLowerCase()
    ensures |AlsNameSearchTerm| == 34
    ensures forall k :: 0 <= k < |AlsNameSearchTerm| ==> HasNoUpper(AlsNameSearchTerm[k])
    ensures forall k :: 0 <= k < |AlsNameSearchTerm| ==> Lower(AlsNameSearchTerm[k]) == AlsNameSearchTerm[k]
  {
    HeadFrontIsLowerCase();
    HeadBackIsLowerCase();
    TailFrontIsLowerCase();
    TailBackIsLowerCase();
    AllLowerConcat(HeadFront, HeadBack);
    AllLowerConcat(TailFront, TailBack);
    AllLowerConcat(SearchTermsHead, SearchTermsTail);
    forall k | 0 <= k < |AlsNameSearchTerm| ensures Lower(AlsNameSearchTerm[k]) == AlsNameSearchTerm[k] {
      LowerFixesLowerCase(AlsNameSearchTerm[k]);
    }
  }
}
