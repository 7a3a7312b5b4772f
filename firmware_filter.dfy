/**
 * The firmware selection filter: build a keyword list from the domain tag,
 * the industry tag and the custom keywords, then scan the catalog once and
 * keep the rows whose vendor matches (when a vendor is given) and whose
 * product name or URL contains one of the keywords (when there are any).
 *
 * Python's optional arguments are tested for truthiness: `None` and the empty
 * string (or the empty list) both mean "not given". `Option` models `None`.
 */
module FirmwareFilter {
  import opened Text
  import opened Records
  import opened KeywordTables

  /** Truthiness of an optional string: given and not empty. */
  predicate Given(s: Option<string>) {
    s.Some? && s.value != ""
  }

  predicate KnownDomain(domain: Option<string>) {
    Given(domain) && domain.value in DomainKeywords
  }

  predicate KnownIndustry(industry: Option<string>) {
    Given(industry) && industry.value in IndustryKeywords
  }

  /** Truthiness of the optional custom keyword list. */
  predicate HasCustom(custom: Option<seq<string>>) {
    custom.Some? && custom.value != []
  }

  /**
   * The keyword list the filter assembles: the domain's keywords, then the
   * industry's, then the custom ones. An unknown or absent tag adds nothing.
   */
  function DomainPart(domain: Option<string>): seq<string> {
    if KnownDomain(domain) then DomainKeywords[domain.value] else []
  }

  function IndustryPart(industry: Option<string>): seq<string> {
    if KnownIndustry(industry) then IndustryKeywords[industry.value] else []
  }

  function CustomPart(custom: Option<seq<string>>): seq<string> {
    if HasCustom(custom) then custom.value else []
  }

  function Keywords(domain: Option<string>, industry: Option<string>, custom: Option<seq<string>>): seq<string> {
    DomainPart(domain) + IndustryPart(industry) + CustomPart(custom)
  }

  /** The row's vendor column, lower-cased, equals the vendor argument, lower-cased. */
  predicate VendorMatches(r: Record, vendor: string) {
    "vendor" in r && Lower(r["vendor"]) == Lower(vendor)
  }

  /** `any(keyword.lower() in text for keyword in keywords)`. */
  predicate AnyKeywordIn(keywords: seq<string>, text: string) {
    keywords != [] && (IsSubstring(Lower(keywords[0]), text) || AnyKeywordIn(keywords[1..], text))
  }

  /** Some keyword occurs in the lower-cased product name or the lower-cased URL (missing = ""). */
  predicate KeywordHit(r: Record, keywords: seq<string>) {
    AnyKeywordIn(keywords, Lower(Field(r, "product"))) || AnyKeywordIn(keywords, Lower(Field(r, "url")))
  }

  /** The per-row test of the scan, for a row the scan reaches. */
  predicate Accepts(r: Record, vendor: Option<string>, keywords: seq<string>) {
    (Given(vendor) ==> VendorMatches(r, vendor.value))
    && (keywords == [] || KeywordHit(r, keywords))
  }

  /**
   * The scan over `rs` in order, stated one row at a time from the end so
   * that it follows the loop: the rows kept so far, or the `KeyError` the
   * first row without a vendor column raises when a vendor is given.
   */
  function Scan(rs: seq<Record>, vendor: Option<string>, keywords: seq<string>): Result<seq<Record>>
    decreases |rs|
  {
    if rs == [] then Ok([])
    else
      var last := rs[|rs| - 1];
      match Scan(rs[..|rs| - 1], vendor, keywords)
      case KeyError(key, index) => KeyError(key, index)
      case Ok(kept) =>
        if Given(vendor) && "vendor" !in last then KeyError("vendor", |rs| - 1)
        else if Accepts(last, vendor, keywords) then Ok(kept + [last])
        else Ok(kept)
  }

  /** Once the scan has raised, scanning further rows does not change the outcome. */
  lemma {:induction false} ScanKeepsError(rs: seq<Record>, vendor: Option<string>, keywords: seq<string>, n: nat)
    requires n <= |rs| && Scan(rs[..n], vendor, keywords).KeyError?
    ensures Scan(rs, vendor, keywords) == Scan(rs[..n], vendor, keywords)
    decreases |rs| - n
  {
    if n < |rs| {
      assert rs[..n + 1][..n] == rs[..n];
      ScanKeepsError(rs, vendor, keywords, n + 1);
    } else {
      assert rs[..n] == rs;
    }
  }

  /** One more row: the scan of `rs[..i + 1]` in terms of the scan of `rs[..i]`. */
  lemma ScanStep(rs: seq<Record>, vendor: Option<string>, keywords: seq<string>, i: nat)
    requires i < |rs|
    ensures Scan(rs[..i + 1], vendor, keywords) ==
      match Scan(rs[..i], vendor, keywords)
      case KeyError(key, index) => KeyError(key, index)
      case Ok(kept) =>
        if Given(vendor) && "vendor" !in rs[i] then KeyError("vendor", i)
        else if Accepts(rs[i], vendor, keywords) then Ok(kept + [rs[i]])
        else Ok(kept)
  {
    assert rs[..i + 1][..i] == rs[..i];
  }

  /** The user gave something to select by: a keyword or a vendor. */
  predicate HasCriteria(domain: Option<string>, industry: Option<string>, vendor: Option<string>,
                        custom: Option<seq<string>>)
  {
    Keywords(domain, industry, custom) != [] || Given(vendor)
  }

  /** What `filter_firmware` returns: nothing without criteria, the scan otherwise. */
  function Filtered(rs: seq<Record>, domain: Option<string>, industry: Option<string>,
                    vendor: Option<string>, custom: Option<seq<string>>): Result<seq<Record>>
  {
    if !HasCriteria(domain, industry, vendor, custom) then Ok([])
    else Scan(rs, vendor, Keywords(domain, industry, custom))
  }

  /**
   * The first step of `filter_firmware`: start from an empty list and extend
   * it with the domain's keywords, the industry's and the custom ones.
   */
  method CollectKeywords(domain: Option<string>, industry: Option<string>, customKeywords: Option<seq<string>>)
    returns (keywords: seq<string>)
    ensures keywords == Keywords(domain, industry, customKeywords)
  {
    keywords := [];
    if Given(domain) && domain.value in DomainKeywords {
      keywords := keywords + DomainKeywords[domain.value];
    }
    assert keywords == DomainPart(domain);
    if Given(industry) && industry.value in IndustryKeywords {
      keywords := keywords + IndustryKeywords[industry.value];
    }
    assert keywords == DomainPart(domain) + IndustryPart(industry);
    if customKeywords.Some? && customKeywords.value != [] {
      keywords := keywords + customKeywords.value;
    }
  }

  /**
   * `filter_firmware`: collects the keyword list, returns early without
   * criteria, then appends the rows that pass to the result in one pass over
   * the catalog.
   */
  method FilterFirmware(firmwareList: seq<Record>, domain: Option<string>, industry: Option<string>,
                        vendor: Option<string>, customKeywords: Option<seq<string>>)
    returns (result: Result<seq<Record>>)
    ensures result == Filtered(firmwareList, domain, industry, vendor, customKeywords)
  {
    var keywords := CollectKeywords(domain, industry, customKeywords);

    if keywords == [] && !Given(vendor) {
      return Ok([]);
    }

    var filteredList: seq<Record> := [];
    for i := 0 to |firmwareList|
      invariant Scan(firmwareList[..i], vendor, keywords) == Ok(filteredList)
    {
      var firmware := firmwareList[i];
      ScanStep(firmwareList, vendor, keywords, i);
      if Given(vendor) {
        if "vendor" !in firmware {
          ScanKeepsError(firmwareList, vendor, keywords, i + 1);
          return KeyError("vendor", i);
        }
        if Lower(firmware["vendor"]) != Lower(vendor.value) {
          continue;
        }
      }
      if keywords == [] {
        filteredList := filteredList + [firmware];
        continue;
      }
      var product := Lower(Field(firmware, "product"));
      if AnyKeywordIn(keywords, product) {
        filteredList := filteredList + [firmware];
        continue;
      }
      var url := Lower(Field(firmware, "url"));
      if AnyKeywordIn(keywords, url) {
        filteredList := filteredList + [firmware];
      }
    }
    assert firmwareList[..|firmwareList|] == firmwareList;
    return Ok(filteredList);
  }
}
