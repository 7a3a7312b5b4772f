/**
 * What `filter_firmware` promises, stated about the specification function
 * `Filtered` that the method `FilterFirmware` is proved to compute.
 */
module FilterProperties {
  import opened Text
  import opened Records
  import opened KeywordTables
  import opened FirmwareFilter

  /** A list filtered by a row test, in order: `[x for x in s if keep(x)]`. */
  function Keep<T>(s: seq<T>, keep: T -> bool): seq<T> {
    if s == [] then []
    else (if keep(s[0]) then [s[0]] else []) + Keep(s[1..], keep)
  }

  /** The row test of `filter_firmware`, as a function value. */
  function Passes(vendor: Option<string>, keywords: seq<string>): Record -> bool {
    r => Accepts(r, vendor, keywords)
  }

  /**
   * Reference definition of the selection: the list comprehension
   * `[r for r in rs if Accepts(r)]`, built from the front.
   */
  function Select(rs: seq<Record>, vendor: Option<string>, keywords: seq<string>): seq<Record> {
    Keep(rs, Passes(vendor, keywords))
  }

  /** Reference definition of vendor-only selection: the rows of `vendor`, in order. */
  function RowsOfVendor(rs: seq<Record>, vendor: string): seq<Record> {
    if rs == [] then []
    else (if VendorMatches(rs[0], vendor) then [rs[0]] else []) + RowsOfVendor(rs[1..], vendor)
  }

  /** `s` sits in `t` at the strictly increasing positions `idx`. */
  predicate IsSubsequenceAt<T(==)>(s: seq<T>, t: seq<T>, idx: seq<nat>) {
    && |idx| == |s|
    && (forall j :: 0 <= j < |idx| ==> idx[j] < |t| && s[j] == t[idx[j]])
    && (forall j, k :: 0 <= j < k < |idx| ==> idx[j] < idx[k])
  }

  // ---------------------------------------------------------------------
  // The keyword test

  lemma {:induction false} AnyKeywordInIff(keywords: seq<string>, text: string)
    ensures AnyKeywordIn(keywords, text) <==>
            exists j :: 0 <= j < |keywords| && IsSubstring(Lower(keywords[j]), text)
    decreases |keywords|
  {
    if keywords != [] {
      AnyKeywordInIff(keywords[1..], text);
      if j :| 0 < j < |keywords| && IsSubstring(Lower(keywords[j]), text) {
        assert keywords[1..][j - 1] == keywords[j];
      }
      if j :| 0 <= j < |keywords| - 1 && IsSubstring(Lower(keywords[1..][j]), text) {
        assert keywords[1..][j] == keywords[j + 1];
      }
    }
  }

  /**
   * With a non-empty keyword list, a row passes exactly when it passes the
   * vendor test and some lower-cased keyword is a substring of its lower-cased
   * product or URL (a missing column reads as "").
   */
  lemma KeywordTestIff(r: Record, vendor: Option<string>, keywords: seq<string>)
    requires keywords != []
    ensures Accepts(r, vendor, keywords) <==>
            (Given(vendor) ==> VendorMatches(r, vendor.value)) &&
            exists j :: 0 <= j < |keywords| &&
              (IsSubstring(Lower(keywords[j]), Lower(Field(r, "product")))
               || IsSubstring(Lower(keywords[j]), Lower(Field(r, "url"))))
  {
    AnyKeywordInIff(keywords, Lower(Field(r, "product")));
    AnyKeywordInIff(keywords, Lower(Field(r, "url")));
  }

  // ---------------------------------------------------------------------
  // The keyword list

  /** The assembled list is empty exactly when no known tag and no custom keyword is given. */
  lemma KeywordsEmptyIff(domain: Option<string>, industry: Option<string>, custom: Option<seq<string>>)
    ensures Keywords(domain, industry, custom) == [] <==>
            !KnownDomain(domain) && !KnownIndustry(industry) && !HasCustom(custom)
  {
    DomainTableWellFormed();
    IndustryTableWellFormed();
  }

  /**
   * A word is in the assembled list exactly when it is a keyword of the given
   * known domain, of the given known industry, or one of the custom keywords.
   */
  lemma KeywordSources(domain: Option<string>, industry: Option<string>, custom: Option<seq<string>>, w: string)
    ensures w in Keywords(domain, industry, custom) <==>
            (KnownDomain(domain) && w in DomainKeywords[domain.value])
            || (KnownIndustry(industry) && w in IndustryKeywords[industry.value])
            || (HasCustom(custom) && w in custom.value)
  {
  }

  /**
   * The list is laid out in order: the domain's keywords first, then the
   * industry's, then the custom ones, each block in its own order.
   */
  lemma KeywordsOrder(domain: Option<string>, industry: Option<string>, custom: Option<seq<string>>)
    ensures var ks, d, n := Keywords(domain, industry, custom), |DomainPart(domain)|, |IndustryPart(industry)|;
            && |ks| == d + n + |CustomPart(custom)|
            && (forall j :: 0 <= j < d ==> ks[j] == DomainKeywords[domain.value][j])
            && (forall j :: 0 <= j < n ==> ks[d + j] == IndustryKeywords[industry.value][j])
            && (forall j :: 0 <= j < |CustomPart(custom)| ==> ks[d + n + j] == custom.value[j])
  {
  }

  /** No criteria: the result is empty, whatever the catalog holds. */
  lemma NoCriteriaSelectsNothing(rs: seq<Record>, domain: Option<string>, industry: Option<string>,
                                 vendor: Option<string>, custom: Option<seq<string>>)
    requires !KnownDomain(domain) && !KnownIndustry(industry) && !HasCustom(custom) && !Given(vendor)
    ensures Filtered(rs, domain, industry, vendor, custom) == Ok([])
  {
  }

  // ---------------------------------------------------------------------
  // The scan agrees with the reference selection

  lemma {:induction false} KeepAppend<T>(s: seq<T>, x: T, keep: T -> bool)
    ensures Keep(s + [x], keep) == Keep(s, keep) + (if keep(x) then [x] else [])
    decreases |s|
  {
    if s != [] {
      assert (s + [x])[1..] == s[1..] + [x];
      KeepAppend(s[1..], x, keep);
    }
  }

  /** A row that lacks the vendor column in a prefix lacks it in the whole list. */
  lemma LackingInPrefix(rs: seq<Record>, n: nat)
    requires n <= |rs| && SomeLacks(rs[..n], "vendor")
    ensures SomeLacks(rs, "vendor") && FirstLacking(rs, "vendor") == FirstLacking(rs[..n], "vendor")
  {
    var init := rs[..n];
    var j :| 0 <= j < |init| && "vendor" !in init[j];
    assert "vendor" !in rs[j];
    var f := FirstLacking(init, "vendor");
    assert rs[f] == init[f];
    forall k | 0 <= k < f ensures "vendor" in rs[k] {
      assert rs[k] == init[k];
    }
  }

  /** A prefix with the vendor column everywhere, followed by a row without it. */
  lemma LackingLast(rs: seq<Record>)
    requires rs != [] && "vendor" !in rs[|rs| - 1] && !SomeLacks(rs[..|rs| - 1], "vendor")
    ensures SomeLacks(rs, "vendor") && FirstLacking(rs, "vendor") == |rs| - 1
  {
    forall k | 0 <= k < |rs| - 1 ensures "vendor" in rs[k] {
      assert rs[k] == rs[..|rs| - 1][k];
    }
  }

  /** A prefix with the vendor column everywhere, followed by a row with it. */
  lemma NoneLacking(rs: seq<Record>)
    requires rs != [] && "vendor" in rs[|rs| - 1] && !SomeLacks(rs[..|rs| - 1], "vendor")
    ensures !SomeLacks(rs, "vendor")
  {
    forall k | 0 <= k < |rs| - 1 ensures "vendor" in rs[k] {
      assert rs[k] == rs[..|rs| - 1][k];
    }
  }

  /**
   * The scan raises exactly when a vendor is given and some row has no vendor
   * column, and then at the first such row; otherwise it returns the reference
   * selection.
   */
  lemma {:induction false} ScanIsSelect(rs: seq<Record>, vendor: Option<string>, keywords: seq<string>)
    ensures Scan(rs, vendor, keywords).KeyError? <==> Given(vendor) && SomeLacks(rs, "vendor")
    ensures Scan(rs, vendor, keywords).KeyError? ==>
            Scan(rs, vendor, keywords) == KeyError("vendor", FirstLacking(rs, "vendor"))
    ensures Scan(rs, vendor, keywords).Ok? ==> Scan(rs, vendor, keywords).value == Select(rs, vendor, keywords)
    decreases |rs|
  {
    if rs != [] {
      var init, last := rs[..|rs| - 1], rs[|rs| - 1];
      assert rs == init + [last];
      ScanIsSelect(init, vendor, keywords);
      if Given(vendor) && SomeLacks(init, "vendor") {
        LackingInPrefix(rs, |rs| - 1);
      } else if Given(vendor) && "vendor" !in last {
        LackingLast(rs);
      } else {
        if Given(vendor) { NoneLacking(rs); }
        KeepAppend(init, last, Passes(vendor, keywords));
      }
    }
  }

  // ---------------------------------------------------------------------
  // Properties of the reference selection

  /** Every position moved one place to the right. */
  function Shift(idx: seq<nat>): (r: seq<nat>)
    ensures |r| == |idx|
    ensures forall j :: 0 <= j < |idx| ==> r[j] == idx[j] + 1
  {
    seq(|idx|, j requires 0 <= j < |idx| => idx[j] + 1)
  }

  /** A subsequence of `t` is one of `[x] + t` at the shifted positions. */
  lemma SubsequenceSkip<T>(s: seq<T>, t: seq<T>, idx: seq<nat>, x: T)
    requires IsSubsequenceAt(s, t, idx)
    ensures IsSubsequenceAt(s, [x] + t, Shift(idx))
  {
  }

  /** ... and `[x] + s` is one of `[x] + t`, with `x` at position 0. */
  lemma SubsequenceTake<T>(s: seq<T>, t: seq<T>, idx: seq<nat>, x: T)
    requires IsSubsequenceAt(s, t, idx)
    ensures IsSubsequenceAt([x] + s, [x] + t, [0] + Shift(idx))
  {
  }

  /**
   * A filtered list sits in the original at increasing positions, each of
   * which holds an element that passes the test.
   */
  lemma {:induction false} KeepSubsequence<T>(s: seq<T>, keep: T -> bool) returns (idx: seq<nat>)
    ensures IsSubsequenceAt(Keep(s, keep), s, idx)
    ensures forall j :: 0 <= j < |idx| ==> keep(s[idx[j]])
    ensures |Keep(s, keep)| <= |s|
    decreases |s|
  {
    if s == [] {
      idx := [];
    } else {
      var rest := KeepSubsequence(s[1..], keep);
      var tail := Keep(s[1..], keep);
      assert [s[0]] + s[1..] == s;
      if keep(s[0]) {
        SubsequenceTake(tail, s[1..], rest, s[0]);
        idx := [0] + Shift(rest);
        forall j | 0 < j < |idx| ensures s[idx[j]] == s[1..][rest[j - 1]] { }
      } else {
        SubsequenceSkip(tail, s[1..], rest, s[0]);
        idx := Shift(rest);
        forall j | 0 <= j < |idx| ensures s[idx[j]] == s[1..][rest[j]] { }
      }
    }
  }

  lemma {:induction false} KeepMembership<T>(s: seq<T>, keep: T -> bool, x: T)
    ensures x in Keep(s, keep) <==> x in s && keep(x)
    decreases |s|
  {
    if s != [] {
      KeepMembership(s[1..], keep, x);
      assert s == [s[0]] + s[1..];
    }
  }

  lemma {:induction false} KeepAllKept<T>(s: seq<T>, keep: T -> bool)
    requires forall j :: 0 <= j < |s| ==> keep(s[j])
    ensures Keep(s, keep) == s
    decreases |s|
  {
    if s != [] {
      KeepAllKept(s[1..], keep);
      assert s == [s[0]] + s[1..];
    }
  }

  lemma {:induction false} SelectVendorOnly(rs: seq<Record>, vendor: string)
    requires vendor != ""
    ensures Select(rs, Some(vendor), []) == RowsOfVendor(rs, vendor)
    decreases |rs|
  {
    if rs != [] {
      SelectVendorOnly(rs[1..], vendor);
    }
  }

  // ---------------------------------------------------------------------
  // Properties of filter_firmware

  /**
   * The outcome of the filter: it raises `KeyError('vendor')` exactly when
   * there are criteria, a vendor is given and some row lacks the vendor
   * column (at the first such row); otherwise, with criteria, it returns the
   * reference selection.
   */
  lemma FilterOutcome(rs: seq<Record>, domain: Option<string>, industry: Option<string>,
                      vendor: Option<string>, custom: Option<seq<string>>)
    ensures Filtered(rs, domain, industry, vendor, custom).KeyError? <==>
            HasCriteria(domain, industry, vendor, custom) && Given(vendor) && SomeLacks(rs, "vendor")
    ensures Filtered(rs, domain, industry, vendor, custom).KeyError? ==>
            Filtered(rs, domain, industry, vendor, custom) == KeyError("vendor", FirstLacking(rs, "vendor"))
    ensures Filtered(rs, domain, industry, vendor, custom).Ok? && HasCriteria(domain, industry, vendor, custom) ==>
            Filtered(rs, domain, industry, vendor, custom).value == Select(rs, vendor, Keywords(domain, industry, custom))
  {
    ScanIsSelect(rs, vendor, Keywords(domain, industry, custom));
  }

  /**
   * The result is an order-preserving subsequence of the input, each input
   * row used at most once, never longer than the input; with criteria, every
   * position used holds a row that passes.
   */
  lemma FilterIsSubsequence(rs: seq<Record>, domain: Option<string>, industry: Option<string>,
                            vendor: Option<string>, custom: Option<seq<string>>)
    returns (idx: seq<nat>)
    requires Filtered(rs, domain, industry, vendor, custom).Ok?
    ensures IsSubsequenceAt(Filtered(rs, domain, industry, vendor, custom).value, rs, idx)
    ensures |Filtered(rs, domain, industry, vendor, custom).value| <= |rs|
    ensures HasCriteria(domain, industry, vendor, custom) ==>
            forall j :: 0 <= j < |idx| ==> Accepts(rs[idx[j]], vendor, Keywords(domain, industry, custom))
  {
    if HasCriteria(domain, industry, vendor, custom) {
      FilterOutcome(rs, domain, industry, vendor, custom);
      idx := KeepSubsequence(rs, Passes(vendor, Keywords(domain, industry, custom)));
    } else {
      idx := [];
    }
  }

  /** With a vendor given, every row of the result has that vendor, ignoring case. */
  lemma VendorSound(rs: seq<Record>, domain: Option<string>, industry: Option<string>,
                    vendor: Option<string>, custom: Option<seq<string>>)
    requires Given(vendor) && Filtered(rs, domain, industry, vendor, custom).Ok?
    ensures forall j :: 0 <= j < |Filtered(rs, domain, industry, vendor, custom).value| ==>
            "vendor" in Filtered(rs, domain, industry, vendor, custom).value[j] &&
            Lower(Filtered(rs, domain, industry, vendor, custom).value[j]["vendor"]) == Lower(vendor.value)
  {
    FilterOutcome(rs, domain, industry, vendor, custom);
    var s := Filtered(rs, domain, industry, vendor, custom).value;
    forall j | 0 <= j < |s| ensures VendorMatches(s[j], vendor.value) {
      KeepMembership(rs, Passes(vendor, Keywords(domain, industry, custom)), s[j]);
    }
  }

  /**
   * Vendor only: with a vendor and no keywords, the result is exactly the
   * rows whose vendor equals the argument ignoring case, in input order.
   */
  lemma VendorOnly(rs: seq<Record>, domain: Option<string>, industry: Option<string>,
                   vendor: string, custom: Option<seq<string>>)
    requires Keywords(domain, industry, custom) == [] && vendor != ""
    requires !SomeLacks(rs, "vendor")
    ensures Filtered(rs, domain, industry, Some(vendor), custom) == Ok(RowsOfVendor(rs, vendor))
  {
    FilterOutcome(rs, domain, industry, Some(vendor), custom);
    SelectVendorOnly(rs, vendor);
  }

  /**
   * With keywords, a catalog row is in the result exactly when it passes the
   * vendor test and some lower-cased keyword is a substring of its
   * lower-cased product or URL.
   */
  lemma KeywordSelection(rs: seq<Record>, domain: Option<string>, industry: Option<string>,
                         vendor: Option<string>, custom: Option<seq<string>>, r: Record)
    requires Keywords(domain, industry, custom) != []
    requires Filtered(rs, domain, industry, vendor, custom).Ok?
    requires r in rs
    ensures r in Filtered(rs, domain, industry, vendor, custom).value <==>
            (Given(vendor) ==> VendorMatches(r, vendor.value)) &&
            exists j :: 0 <= j < |Keywords(domain, industry, custom)| &&
              (IsSubstring(Lower(Keywords(domain, industry, custom)[j]), Lower(Field(r, "product")))
               || IsSubstring(Lower(Keywords(domain, industry, custom)[j]), Lower(Field(r, "url"))))
  {
    var keywords := Keywords(domain, industry, custom);
    FilterOutcome(rs, domain, industry, vendor, custom);
    KeepMembership(rs, Passes(vendor, keywords), r);
    KeywordTestIff(r, vendor, keywords);
  }

  /** Filtering the result again with the same criteria gives it back unchanged. */
  lemma FilterIdempotent(rs: seq<Record>, domain: Option<string>, industry: Option<string>,
                         vendor: Option<string>, custom: Option<seq<string>>)
    requires Filtered(rs, domain, industry, vendor, custom).Ok?
    ensures Filtered(Filtered(rs, domain, industry, vendor, custom).value, domain, industry, vendor, custom)
            == Filtered(rs, domain, industry, vendor, custom)
  {
    var s := Filtered(rs, domain, industry, vendor, custom).value;
    if HasCriteria(domain, industry, vendor, custom) {
      var keywords := Keywords(domain, industry, custom);
      FilterOutcome(rs, domain, industry, vendor, custom);
      forall j | 0 <= j < |s| ensures Accepts(s[j], vendor, keywords) {
        KeepMembership(rs, Passes(vendor, keywords), s[j]);
      }
      ScanIsSelect(s, vendor, keywords);
      KeepAllKept(s, Passes(vendor, keywords));
    }
  }
}
