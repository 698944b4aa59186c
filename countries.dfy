/**
 * Country-name normalisation of the inventory generator: `COUNTRY_MAPPING` and
 * `_convert_country_to_code` (src/inventory_generator.py).
 */
module Countries {
  import opened Wrappers
  import opened Text
  import opened OrderedDicts

  /** The number of entries of `COUNTRY_MAPPING`. */
  const CountryCount: nat := 72

  /** Entry `i` of `COUNTRY_MAPPING`: a country name in English or in local spelling and its ISO 3166 alpha-2 code. */
  function CountryEntry(i: nat): Binding<string>
    requires i < CountryCount
  {
    match i
    case 0 => Binding("Germany", "DE")
    case 1 => Binding("Deutschland", "DE")
    case 2 => Binding("Russian Federation", "RU")
    case 3 => Binding("Russia", "RU")
    case 4 => Binding("\U{420}\U{43E}\U{441}\U{441}\U{438}\U{44F}", "RU")
    case 5 => Binding("Finland", "FI")
    case 6 => Binding("Suomi", "FI")
    case 7 => Binding("United States", "US")
    case 8 => Binding("USA", "US")
    case 9 => Binding("United Kingdom", "GB")
    case 10 => Binding("UK", "GB")
    case 11 => Binding("France", "FR")
    case 12 => Binding("Netherlands", "NL")
    case 13 => Binding("Holland", "NL")
    case 14 => Binding("Poland", "PL")
    case 15 => Binding("Polska", "PL")
    case 16 => Binding("Czech Republic", "CZ")
    case 17 => Binding("Czechia", "CZ")
    case 18 => Binding("Austria", "AT")
    case 19 => Binding("Switzerland", "CH")
    case 20 => Binding("Sweden", "SE")
    case 21 => Binding("Norway", "NO")
    case 22 => Binding("Denmark", "DK")
    case 23 => Binding("Italy", "IT")
    case 24 => Binding("Spain", "ES")
    case 25 => Binding("Portugal", "PT")
    case 26 => Binding("Belgium", "BE")
    case 27 => Binding("Ireland", "IE")
    case 28 => Binding("Luxembourg", "LU")
    case 29 => Binding("Estonia", "EE")
    case 30 => Binding("Latvia", "LV")
    case 31 => Binding("Lithuania", "LT")
    case 32 => Binding("Slovakia", "SK")
    case 33 => Binding("Slovenia", "SI")
    case 34 => Binding("Croatia", "HR")
    case 35 => Binding("Hungary", "HU")
    case 36 => Binding("Romania", "RO")
    case 37 => Binding("Bulgaria", "BG")
    case 38 => Binding("Greece", "GR")
    case 39 => Binding("Cyprus", "CY")
    case 40 => Binding("Malta", "MT")
    case 41 => Binding("Japan", "JP")
    case 42 => Binding("China", "CN")
    case 43 => Binding("South Korea", "KR")
    case 44 => Binding("Singapore", "SG")
    case 45 => Binding("Hong Kong", "HK")
    case 46 => Binding("Taiwan", "TW")
    case 47 => Binding("India", "IN")
    case 48 => Binding("Australia", "AU")
    case 49 => Binding("New Zealand", "NZ")
    case 50 => Binding("Canada", "CA")
    case 51 => Binding("Brazil", "BR")
    case 52 => Binding("Mexico", "MX")
    case 53 => Binding("Argentina", "AR")
    case 54 => Binding("Chile", "CL")
    case 55 => Binding("Colombia", "CO")
    case 56 => Binding("Peru", "PE")
    case 57 => Binding("South Africa", "ZA")
    case 58 => Binding("Egypt", "EG")
    case 59 => Binding("Israel", "IL")
    case 60 => Binding("Turkey", "TR")
    case 61 => Binding("Ukraine", "UA")
    case 62 => Binding("Belarus", "BY")
    case 63 => Binding("Kazakhstan", "KZ")
    case 64 => Binding("Uzbekistan", "UZ")
    case 65 => Binding("Kyrgyzstan", "KG")
    case 66 => Binding("Tajikistan", "TJ")
    case 67 => Binding("Turkmenistan", "TM")
    case 68 => Binding("Moldova", "MD")
    case 69 => Binding("Georgia", "GE")
    case 70 => Binding("Armenia", "AM")
    case _ => Binding("Azerbaijan", "AZ")
  }

  /** `COUNTRY_MAPPING`, in literal order. */
  function CountryMapping(): (table: ODict<string>)
    ensures |table| == CountryCount
    ensures forall i :: 0 <= i < CountryCount ==> table[i] == CountryEntry(i)
  {
    seq(CountryCount, i requires 0 <= i < CountryCount => CountryEntry(i))
  }

  /** The position of the first entry whose name, lower-cased, is `lowered`. */
  function CaseInsensitiveMatch(table: ODict<string>, lowered: string): (r: Option<nat>)
    ensures r.Some? ==> r.value < |table| && Lower(table[r.value].key) == lowered
    ensures r.Some? ==> forall j :: 0 <= j < r.value ==> Lower(table[j].key) != lowered
    ensures r.None? ==> forall j :: 0 <= j < |table| ==> Lower(table[j].key) != lowered
  {
    if table == [] then None
    else
      var init := table[..|table| - 1];
      match CaseInsensitiveMatch(init, lowered)
      case Some(i) => Some(i)
      case None => if Lower(table[|table| - 1].key) == lowered then Some(|table| - 1) else None
  }

  /** The search finds the first matching entry. */
  lemma FirstMatchFound(table: ODict<string>, lowered: string, i: nat)
    requires i < |table| && Lower(table[i].key) == lowered
    requires forall j :: 0 <= j < i ==> Lower(table[j].key) != lowered
    ensures CaseInsensitiveMatch(table, lowered) == Some(i)
  {
    var r := CaseInsensitiveMatch(table, lowered);
    assert r.Some?;
  }

  /**
   * `_convert_country_to_code` over a country table: an empty name is returned as is;
   * otherwise the stripped name is looked up exactly, then case-insensitively in table
   * order, and kept when unknown.
   */
  function CodeFor(table: ODict<string>, name: string): string {
    if name == "" then name
    else
      var stripped := Trim(name);
      if stripped in Keys(table) then Get(table, stripped)
      else match CaseInsensitiveMatch(table, Lower(stripped))
        case Some(i) => table[i].value
        case None => stripped
  }

  /** The code the inventory records for a location. */
  function CountryCode(name: string): string {
    CodeFor(CountryMapping(), name)
  }

  /** `_convert_country_to_code`, with `COUNTRY_MAPPING` passed in as `table`. */
  method ConvertCountryToCode(table: ODict<string>, countryName: string) returns (code: string)
    ensures code == CodeFor(table, countryName)
  {
    if countryName == "" {
      return countryName;
    }
    var name := Trim(countryName);
    if name in Keys(table) {
      return Get(table, name);
    }
    var countryLower := Lower(name);
    for i := 0 to |table|
      invariant forall j :: 0 <= j < i ==> Lower(table[j].key) != countryLower
    {
      if Lower(table[i].key) == countryLower {
        FirstMatchFound(table, countryLower, i);
        return table[i].value;
      }
    }
    assert CaseInsensitiveMatch(table, countryLower).None?;
    return name;
  }

  /** An exact name match wins, at the first entry that carries the stripped name. */
  lemma ExactMatchAt(table: ODict<string>, name: string, i: nat)
    requires name != "" && i < |table| && table[i].key == Trim(name)
    requires forall j :: 0 <= j < i ==> table[j].key != Trim(name)
    ensures CodeFor(table, name) == table[i].value
  {
    assert Keys(table)[i] == Trim(name);
  }

  /** Without an exact match, the first entry whose lower-cased name matches gives the code. */
  lemma CaseInsensitiveAt(table: ODict<string>, name: string, i: nat)
    requires name != "" && Trim(name) !in Keys(table)
    requires i < |table| && Lower(table[i].key) == Lower(Trim(name))
    requires forall j :: 0 <= j < i ==> Lower(table[j].key) != Lower(Trim(name))
    ensures CodeFor(table, name) == table[i].value
  {
    FirstMatchFound(table, Lower(Trim(name)), i);
  }

  /** A name that matches no entry in any letter case is kept, stripped. */
  lemma UnknownNameKept(table: ODict<string>, name: string)
    requires name != "" && Trim(name) !in Keys(table)
    requires forall j :: 0 <= j < |table| ==> Lower(table[j].key) != Lower(Trim(name))
    ensures CodeFor(table, name) == Trim(name)
  {
  }

  /** The code is the empty input itself, the stripped input, or one of the table's codes. */
  lemma CodeForResult(table: ODict<string>, name: string)
    ensures name == "" ==> CodeFor(table, name) == ""
    ensures name != "" ==> CodeFor(table, name) == Trim(name)
                           || exists i :: 0 <= i < |table| && CodeFor(table, name) == table[i].value
  {
    if name != "" && Trim(name) in Keys(table) {
      var i := IndexOf(table, Trim(name));
      assert CodeFor(table, name) == table[i].value;
    }
  }

  /** The local spelling is an exact entry. */
  lemma DeutschlandExample()
    ensures CountryCode("Deutschland") == "DE"
  {
    TrimOfTrimmed("Deutschland");
    ExactMatchAt(CountryMapping(), "Deutschland", 1);
  }

  /** The English name in lower case is found by the case-insensitive search. */
  lemma GermanyExample()
    ensures CountryCode("germany") == "DE"
  {
    TrimOfTrimmed("germany");
    GermanyIsNotAKey();
    GermanyLowered();
    CaseInsensitiveAt(CountryMapping(), "germany", 0);
  }

  lemma GermanyLowered()
    ensures Lower("Germany") == "germany" && Lower("germany") == "germany"
  {
    assert Lower("Germany")[0] == 'g';
  }

  /** A Latin or Cyrillic capital letter. */
  predicate IsCapital(c: char) {
    'A' <= c <= 'Z' || '\U{400}' <= c <= '\U{42F}'
  }

  /** Every name in the table starts with a capital letter (checked a quarter of the table at a time). */
  lemma NamesAreCapitalised(i: nat)
    requires i < CountryCount
    ensures CountryEntry(i).key != [] && IsCapital(CountryEntry(i).key[0])
  {
    if i < 18 {
      FirstQuarterCapitalised(i);
    } else if i < 36 {
      SecondQuarterCapitalised(i);
    } else if i < 54 {
      ThirdQuarterCapitalised(i);
    } else {
      FourthQuarterCapitalised(i);
    }
  }

  // Helpers of `NamesAreCapitalised`, one per quarter of the table, to keep each proof small.

  lemma FirstQuarterCapitalised(i: nat)
    requires i < 18
    ensures CountryEntry(i).key != [] && IsCapital(CountryEntry(i).key[0])
  {
  }

  lemma SecondQuarterCapitalised(i: nat)
    requires 18 <= i < 36
    ensures CountryEntry(i).key != [] && IsCapital(CountryEntry(i).key[0])
  {
  }

  lemma ThirdQuarterCapitalised(i: nat)
    requires 36 <= i < 54
    ensures CountryEntry(i).key != [] && IsCapital(CountryEntry(i).key[0])
  {
  }

  lemma FourthQuarterCapitalised(i: nat)
    requires 54 <= i < CountryCount
    ensures CountryEntry(i).key != [] && IsCapital(CountryEntry(i).key[0])
  {
  }

  lemma GermanyIsNotAKey()
    ensures "germany" !in Keys(CountryMapping())
  {
    var keys := Keys(CountryMapping());
    forall i | 0 <= i < |keys|
      ensures keys[i] != "germany"
    {
      NamesAreCapitalised(i);
      assert keys[i] == CountryEntry(i).key;
      assert !IsCapital("germany"[0]);
    }
  }
}
