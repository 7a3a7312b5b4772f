/**
 * Two worked examples on a two-row catalog: a TP-Link router and an Acme
 * thermostat.
 */
module Scenarios {
  import opened Text
  import opened Records
  import opened KeywordTables
  import opened FirmwareFilter
  import opened FilterProperties

  const Archer: Record := map["vendor" := "TP-Link", "product" := "Archer C7 Router", "url" := "http://x/c7.bin"]
  const Thermostat: Record := map["vendor" := "Acme", "product" := "Smart Thermostat", "url" := "http://x/therm.bin"]

  /** A needle with a character that the text lacks does not occur in it. */
  lemma {:induction false} MissingCharNotSubstring(needle: string, text: string, c: char)
    requires c in needle && c !in text
    ensures !IsSubstring(needle, text)
  {
    var k :| 0 <= k < |needle| && needle[k] == c;
    forall i | 0 <= i && i + |needle| <= |text| ensures !OccursAt(needle, text, i) {
      assert text[i..i + |needle|][k] == text[i + k] != c;
    }
    IsSubstringIff(needle, text);
  }

  /**
   * No keyword occurs in `text` when, for each (lower-case) keyword, `witnesses`
   * names a character of it that `text` lacks.
   */
  lemma NoKeywordIn(keywords: seq<string>, text: string, witnesses: string)
    requires |witnesses| == |keywords|
    requires forall j :: 0 <= j < |keywords| ==> IsLower(keywords[j])
    requires forall j :: 0 <= j < |keywords| ==> witnesses[j] in keywords[j] && witnesses[j] !in text
    ensures !AnyKeywordIn(keywords, text)
  {
    forall j | 0 <= j < |keywords| ensures !IsSubstring(Lower(keywords[j]), text) {
      LowerOfLowerCase(keywords[j]);
      MissingCharNotSubstring(keywords[j], text, witnesses[j]);
    }
    AnyKeywordInIff(keywords, text);
  }

  /** `t` is `s` lower-cased, character by character. */
  lemma LowerIs(s: string, t: string)
    requires |s| == |t| && forall i :: 0 <= i < |s| ==> LowerChar(s[i]) == t[i]
    ensures Lower(s) == t
  {
  }

  lemma RouterLower()
    ensures Lower("router") == "router"
  {
    LowerIs("router", "router");
  }

  lemma ArcherProductLower()
    ensures Lower("Archer C7 Router") == "archer c7 router"
  {
    LowerIs("Archer C7 Router", "archer c7 router");
  }

  lemma RouterInArcher()
    ensures IsSubstring("router", "archer c7 router")
  {
    assert OccursAt("router", "archer c7 router", 10);
    IsSubstringIff("router", "archer c7 router");
  }

  lemma ArcherMatchesWifi(r: Record)
    requires r == Archer
    ensures Accepts(r, None, Wifi)
  {
    RouterLower();
    ArcherProductLower();
    RouterInArcher();
    assert Field(r, "product") == "Archer C7 Router";
    assert Wifi[0] == "router";
  }

  lemma ThermostatProductLower()
    ensures Lower("Smart Thermostat") == "smart thermostat"
  {
    LowerIs("Smart Thermostat", "smart thermostat");
  }

  lemma ThermostatUrlLower()
    ensures Lower("http://x/therm.bin") == "http://x/therm.bin"
  {
    LowerOfLowerCase("http://x/therm.bin");
  }

  lemma WifiMissesThermostatProduct()
    ensures !AnyKeywordIn(Wifi, "smart thermostat")
  {
    WifiWellFormed();
    NoKeywordIn(Wifi, "smart thermostat", "ucpwwwwww8wwwwclnupd");
  }

  lemma WifiMissesThermostatUrl()
    ensures !AnyKeywordIn(Wifi, "http://x/therm.bin")
  {
    WifiWellFormed();
    NoKeywordIn(Wifi, "http://x/therm.bin", "oaawwwwww8wwwwalga-d");
  }

  /** A keyword list that misses `t` misses every text that lowers to `t`. */
  lemma MissesLowered(keywords: seq<string>, s: string, t: string)
    requires Lower(s) == t && !AnyKeywordIn(keywords, t)
    ensures !AnyKeywordIn(keywords, Lower(s))
  {
  }

  lemma ThermostatProductMissesWifi(r: Record)
    requires r == Thermostat
    ensures !AnyKeywordIn(Wifi, Lower(Field(r, "product")))
  {
    var product := Field(r, "product");
    assert product == "Smart Thermostat";
    ThermostatProductLower();
    WifiMissesThermostatProduct();
    MissesLowered(Wifi, product, "smart thermostat");
  }

  lemma ThermostatUrlMissesWifi(r: Record)
    requires r == Thermostat
    ensures !AnyKeywordIn(Wifi, Lower(Field(r, "url")))
  {
    var url := Field(r, "url");
    assert url == "http://x/therm.bin";
    ThermostatUrlLower();
    WifiMissesThermostatUrl();
    MissesLowered(Wifi, url, "http://x/therm.bin");
  }

  lemma ThermostatMissesWifi(r: Record)
    requires r == Thermostat
    ensures !Accepts(r, None, Wifi)
  {
    ThermostatProductMissesWifi(r);
    ThermostatUrlMissesWifi(r);
  }

  /** The scan of a two-row catalog when the vendor test cannot raise. */
  lemma ScanTwoRows(rs: seq<Record>, vendor: Option<string>, keywords: seq<string>)
    requires |rs| == 2
    requires Given(vendor) ==> "vendor" in rs[0] && "vendor" in rs[1]
    ensures Scan(rs, vendor, keywords) ==
            Ok((if Accepts(rs[0], vendor, keywords) then [rs[0]] else [])
               + (if Accepts(rs[1], vendor, keywords) then [rs[1]] else []))
  {
    ScanStep(rs, vendor, keywords, 0);
    assert rs[..0] == [];
    assert Scan(rs[..0], vendor, keywords) == Ok([]);
    assert [] + [rs[0]] == [rs[0]];
    assert Scan(rs[..1], vendor, keywords) ==
           Ok(if Accepts(rs[0], vendor, keywords) then [rs[0]] else []);
    ScanStep(rs, vendor, keywords, 1);
    assert rs[..2] == rs;
    var first := if Accepts(rs[0], vendor, keywords) then [rs[0]] else [];
    assert first + [] == first;
  }

  lemma ScanKeepsFirst(rs: seq<Record>, vendor: Option<string>, keywords: seq<string>)
    requires |rs| == 2 && !Given(vendor)
    requires Accepts(rs[0], vendor, keywords) && !Accepts(rs[1], vendor, keywords)
    ensures Scan(rs, vendor, keywords) == Ok([rs[0]])
  {
    ScanTwoRows(rs, vendor, keywords);
    assert [rs[0]] + [] == [rs[0]];
  }

  lemma WifiKeywords()
    ensures HasCriteria(Some("wifi"), None, None, None)
    ensures Keywords(Some("wifi"), None, None) == Wifi
  {
  }

  lemma WifiScan(catalog: seq<Record>)
    requires catalog == [Archer, Thermostat]
    ensures Scan(catalog, None, Wifi) == Ok([Archer])
  {
    ArcherMatchesWifi(catalog[0]);
    ThermostatMissesWifi(catalog[1]);
    ScanKeepsFirst(catalog, None, Wifi);
  }

  /** Domain "wifi" keeps the Archer row only ("router" and "archer" both occur in it). */
  lemma WifiScenario(catalog: seq<Record>)
    requires catalog == [Archer, Thermostat]
    ensures Filtered(catalog, Some("wifi"), None, None, None) == Ok([Archer])
  {
    WifiKeywords();
    WifiScan(catalog);
  }

  lemma AcmeVendor(r: Record)
    requires r == Thermostat
    ensures Accepts(r, Some("acme"), [])
  {
    LowerIs("Acme", "acme");
    LowerIs("acme", "acme");
  }

  lemma TpLinkNotAcme(r: Record)
    requires r == Archer
    ensures !Accepts(r, Some("acme"), [])
  {
    assert Lower("TP-Link")[0] != Lower("acme")[0];
  }

  /** Vendor "acme", in a different case from the catalog's "Acme", keeps the Acme row only. */
  lemma VendorScenario(catalog: seq<Record>)
    requires catalog == [Archer, Thermostat]
    ensures Filtered(catalog, None, None, Some("acme"), None) == Ok([Thermostat])
  {
    TpLinkNotAcme(catalog[0]);
    AcmeVendor(catalog[1]);
    ScanTwoRows(catalog, Some("acme"), []);
    assert [] + [catalog[1]] == [catalog[1]];
    assert Keywords(None, None, None) == [];
    assert HasCriteria(None, None, Some("acme"), None);
  }
}
