/** The home page's flag pictures: a country name is matched against a fixed table of
    name fragments, and the first fragment it contains gives the two-letter flag code. */
module Flags {
  import opened Wrappers
  import opened Seqs
  import opened Text

  const FlagUrlPrefix: string := "https://flagcdn.com/w320/"
  const FlagUrlSuffix: string := ".png"

  /** The name fragments and their flag codes, in the order the lookup tries them. */
  const CountryCodes: seq<(string, string)> := [
    ("Australia", "au"),
    ("Austria", "at"),
    ("Azerbaijan", "az"),
    ("Bahrain", "bh"),
    ("Belgium", "be"),
    ("Brazil", "br"),
    ("Canada", "ca"),
    ("China", "cn"),
    ("Netherlands", "nl"),
    ("Emilia Romagna", "it"),
    ("France", "fr"),
    ("Great Britain", "gb"),
    ("Hungary", "hu"),
    ("Italy", "it"),
    ("Japan", "jp"),
    ("Mexico", "mx"),
    ("Monaco", "mc"),
    ("Qatar", "qa"),
    ("Saudi Arabia", "sa"),
    ("Singapore", "sg"),
    ("Spain", "es"),
    ("USA", "us"),
    ("United States", "us"),
    ("UAE", "ae"),
    ("Abu Dhabi", "ae"),
    ("Las Vegas", "us"),
    ("Miami", "us")
  ]

  /** The first entry of `table` whose fragment occurs, ignoring case, in the country name:
      the dictionary's `FirstOrDefault` in insertion order. */
  function FirstEntry(table: seq<(string, string)>, countryName: string): Option<(string, string)>
  {
    FindFirst(table, (entry: (string, string)) => ContainsIgnoreCase(countryName, entry.0))
  }

  /** The lookup returns the first entry whose fragment occurs in the name, and nothing
      exactly when no fragment does. */
  lemma FirstEntrySpec(table: seq<(string, string)>, countryName: string)
    ensures var r := FirstEntry(table, countryName);
      && (r.Some? ==> exists i :: 0 <= i < |table| && table[i] == r.value
                        && ContainsIgnoreCase(countryName, table[i].0)
                        && forall j :: 0 <= j < i ==> !ContainsIgnoreCase(countryName, table[j].0))
      && (r.None? <==> forall i :: 0 <= i < |table| ==> !ContainsIgnoreCase(countryName, table[i].0))
  {
  }

  /** The flag address for a looked-up entry; the empty text when there is none or its code is empty. */
  function UrlOf(entry: Option<(string, string)>): string
  {
    match entry
    case None => ""
    case Some(e) => if e.1 != "" then FlagUrlPrefix + e.1 + FlagUrlSuffix else ""
  }

  function GetCountryFlagUrl(countryName: string): string
  {
    UrlOf(FirstEntry(CountryCodes, countryName))
  }

  /** Every flag code of the table is two lower-case letters. */
  lemma CodesAreTwoLowerCaseLetters()
    ensures forall i :: 0 <= i < |CountryCodes| ==>
      |CountryCodes[i].1| == 2 && 'a' <= CountryCodes[i].1[0] <= 'z' && 'a' <= CountryCodes[i].1[1] <= 'z'
  {
  }

  /** With a table of non-empty codes, the address is empty exactly when no fragment occurs
      in the name; otherwise it is the flag address of the first fragment that does. */
  lemma {:induction false} UrlOfFirstEntry(table: seq<(string, string)>, countryName: string)
    requires forall i :: 0 <= i < |table| ==> table[i].1 != ""
    ensures UrlOf(FirstEntry(table, countryName)) == "" <==>
      forall i :: 0 <= i < |table| ==> !ContainsIgnoreCase(countryName, table[i].0)
    ensures UrlOf(FirstEntry(table, countryName)) != "" ==>
      exists i :: 0 <= i < |table|
        && ContainsIgnoreCase(countryName, table[i].0)
        && (forall j :: 0 <= j < i ==> !ContainsIgnoreCase(countryName, table[j].0))
        && UrlOf(FirstEntry(table, countryName)) == FlagUrlPrefix + table[i].1 + FlagUrlSuffix
  {
    FirstEntrySpec(table, countryName);
    var r := FirstEntry(table, countryName);
    if r.Some? {
      var i :| 0 <= i < |table| && table[i] == r.value
                 && ContainsIgnoreCase(countryName, table[i].0)
                 && forall j :: 0 <= j < i ==> !ContainsIgnoreCase(countryName, table[j].0);
      assert |FlagUrlPrefix + table[i].1 + FlagUrlSuffix| > 0;
    }
  }

  /** The home page's lookup: the flag address of the first table fragment in the name, or
      the empty text when none occurs. */
  lemma FlagUrlSpec(countryName: string)
    ensures GetCountryFlagUrl(countryName) == "" <==>
      forall i :: 0 <= i < |CountryCodes| ==> !ContainsIgnoreCase(countryName, CountryCodes[i].0)
    ensures GetCountryFlagUrl(countryName) != "" ==>
      exists i :: 0 <= i < |CountryCodes|
        && ContainsIgnoreCase(countryName, CountryCodes[i].0)
        && (forall j :: 0 <= j < i ==> !ContainsIgnoreCase(countryName, CountryCodes[j].0))
        && GetCountryFlagUrl(countryName) == FlagUrlPrefix + CountryCodes[i].1 + FlagUrlSuffix
  {
    CodesAreTwoLowerCaseLetters();
    UrlOfFirstEntry(CountryCodes, countryName);
  }

  /** "Austria" is not caught by the earlier "Australia" entry. */
  lemma AustriaGetsItsOwnFlag()
    ensures GetCountryFlagUrl("Austria") == FlagUrlPrefix + "at" + FlagUrlSuffix
  {
    var codes := CountryCodes;
    assert codes[0].0 == "Australia" && codes[1] == ("Austria", "at");
    LongerIsNotContained("Austria", codes[0].0);
    ContainsItself("Austria");
    assert FirstEntry(codes, "Austria") == Some(codes[1]) by {
      FindFirstAt(codes, (entry: (string, string)) => ContainsIgnoreCase("Austria", entry.0), 1);
    }
  }

  /** An empty country name has no flag. */
  lemma NoNameNoFlag()
    ensures GetCountryFlagUrl("") == ""
  {
    forall i | 0 <= i < |CountryCodes|
      ensures !ContainsIgnoreCase("", CountryCodes[i].0)
    {
      LongerIsNotContained("", CountryCodes[i].0);
    }
    FlagUrlSpec("");
  }
}
