/**
 * The two static keyword tables: application domain to keywords and industry
 * to keywords. Tags are looked up by exact (case-sensitive) match; every
 * keyword is a non-empty lower-case string.
 */
module KeywordTables {
  import opened Text

  const Wifi: seq<string> := [
    "router", "access point", "ap", "wireless", "wifi", "wi-fi",
    "wlan", "wr", "wap", "802.11", "wrt", "wnr", "wgr", "wdr",
    "archer", "linksys", "netgear", "asus", "tp-link", "d-link"
  ]
  const Iot: seq<string> := [
    "iot", "internet of things", "smart device", "connected device",
    "sensor", "actuator", "smart home", "smart building"
  ]
  const Camera: seq<string> := [
    "camera", "ip camera", "webcam", "surveillance", "cctv",
    "security camera", "dvr", "nvr", "video recorder"
  ]
  const Storage: seq<string> := [
    "storage", "nas", "network attached storage", "san", "raid",
    "disk", "drive", "backup"
  ]
  const Printer: seq<string> := [
    "printer", "scanner", "mfp", "multifunction", "copier",
    "fax", "all-in-one"
  ]
  const Voip: seq<string> := [
    "voip", "voice", "ip phone", "sip", "telephony", "pbx",
    "call", "conference"
  ]
  const Modem: seq<string> := [
    "modem", "dsl", "adsl", "vdsl", "cable modem", "docsis",
    "fiber", "gpon", "ont"
  ]

  /** Application domain keywords. */
  const DomainKeywords: map<string, seq<string>> := map[
    "wifi" := Wifi, "iot" := Iot, "camera" := Camera, "storage" := Storage,
    "printer" := Printer, "voip" := Voip, "modem" := Modem
  ]

  const Healthcare: seq<string> := ["medical", "health", "hospital", "patient", "clinic", "diagnostic"]
  const Industrial: seq<string> := ["industrial", "factory", "manufacturing", "automation", "plc", "scada", "iot"]
  const Automotive: seq<string> := ["car", "vehicle", "automotive", "telematics", "obd"]
  const SmartHome: seq<string> := ["smart home", "home automation", "thermostat", "doorbell", "camera", "security"]
  const Networking: seq<string> := ["router", "switch", "gateway", "firewall", "vpn", "network"]
  const Enterprise: seq<string> := ["enterprise", "business", "corporate", "office"]
  const Education: seq<string> := ["education", "school", "university", "campus"]
  const Retail: seq<string> := ["pos", "point of sale", "retail", "kiosk", "payment"]
  const Telecom: seq<string> := ["telecom", "telecommunication", "cellular", "mobile", "base station"]

  /** Industry-specific keywords. */
  const IndustryKeywords: map<string, seq<string>> := map[
    "healthcare" := Healthcare, "industrial" := Industrial, "automotive" := Automotive,
    "smart_home" := SmartHome, "networking" := Networking, "enterprise" := Enterprise,
    "education" := Education, "retail" := Retail, "telecom" := Telecom
  ]

  /** A keyword list as the tables hold it: not empty, each keyword non-empty and lower-case. */
  predicate WellFormedList(words: seq<string>) {
    words != [] && forall i :: 0 <= i < |words| ==> words[i] != "" && IsLower(words[i])
  }

  /** Every tag of `table` has a well-formed keyword list. */
  predicate WellFormed(table: map<string, seq<string>>) {
    forall tag :: tag in table ==> WellFormedList(table[tag])
  }

  lemma DomainTableWellFormed()
    ensures DomainKeywords.Keys == {"wifi", "iot", "camera", "storage", "printer", "voip", "modem"}
    ensures WellFormed(DomainKeywords)
  {
    WifiWellFormed(); IotWellFormed(); CameraWellFormed(); StorageWellFormed();
    PrinterWellFormed(); VoipWellFormed(); ModemWellFormed();
  }

  lemma IndustryTableWellFormed()
    ensures IndustryKeywords.Keys == {"healthcare", "industrial", "automotive", "smart_home",
                                      "networking", "enterprise", "education", "retail", "telecom"}
    ensures WellFormed(IndustryKeywords)
  {
    HealthcareWellFormed(); IndustrialWellFormed(); AutomotiveWellFormed();
    SmartHomeWellFormed(); NetworkingWellFormed(); EnterpriseWellFormed();
    EducationWellFormed(); RetailWellFormed(); TelecomWellFormed();
  }

  lemma WifiWellFormed()
    ensures WellFormedList(Wifi)
  {
  }

  lemma IotWellFormed()
    ensures WellFormedList(Iot)
  {
    assert IsLower("internet of things") && IsLower("connected device");
  }

  lemma CameraWellFormed()
    ensures WellFormedList(Camera)
  {
  }

  lemma StorageWellFormed()
    ensures WellFormedList(Storage)
  {
  }

  lemma PrinterWellFormed()
    ensures WellFormedList(Printer)
  {
  }

  lemma VoipWellFormed()
    ensures WellFormedList(Voip)
  {
  }

  lemma ModemWellFormed()
    ensures WellFormedList(Modem)
  {
  }

  lemma HealthcareWellFormed()
    ensures WellFormedList(Healthcare)
  {
  }

  lemma IndustrialWellFormed()
    ensures WellFormedList(Industrial)
  {
  }

  lemma AutomotiveWellFormed()
    ensures WellFormedList(Automotive)
  {
  }

  lemma SmartHomeWellFormed()
    ensures WellFormedList(SmartHome)
  {
  }

  lemma NetworkingWellFormed()
    ensures WellFormedList(Networking)
  {
  }

  lemma EnterpriseWellFormed()
    ensures WellFormedList(Enterprise)
  {
  }

  lemma EducationWellFormed()
    ensures WellFormedList(Education)
  {
  }

  lemma RetailWellFormed()
    ensures WellFormedList(Retail)
  {
  }

  lemma TelecomWellFormed()
    ensures WellFormedList(Telecom)
  {
  }
}
