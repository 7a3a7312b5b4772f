/**
 * The pure part of `download_filtered_firmware`: cap the list at `limit`
 * rows when a positive limit is given, then take each row's `url` column.
 * The resulting list is what the downloader is handed, and its length is the
 * count the function returns. Creating the directory and downloading are
 * not part of this model.
 */
module Download {
  import opened Records

  function Min(a: int, b: int): int {
    if a <= b then a else b
  }

  /** `limit and limit > 0`: `None` and `0` mean "no cap", as do negative limits. */
  predicate CapApplies(limit: Option<int>) {
    limit.Some? && limit.value > 0
  }

  /** `firmware_list[:limit]` when the cap applies, the whole list otherwise. */
  function Capped(list: seq<Record>, limit: Option<int>): (c: seq<Record>)
    ensures |c| <= |list| && c == list[..|c|]
    ensures CapApplies(limit) ==> |c| == Min(limit.value, |list|)
    ensures !CapApplies(limit) ==> c == list
  {
    if CapApplies(limit) && limit.value < |list| then list[..limit.value] else list
  }

  /**
   * `[item['url'] for item in rows]`: the URLs in order, or the `KeyError`
   * raised at the first row without a `url` column.
   */
  function Urls(rs: seq<Record>): (r: Result<seq<string>>)
    ensures r.Ok? <==> !SomeLacks(rs, "url")
    ensures r.Ok? ==> |r.value| == |rs| && forall j :: 0 <= j < |rs| ==> r.value[j] == rs[j]["url"]
    ensures r.KeyError? ==> r == KeyError("url", FirstLacking(rs, "url"))
  {
    if rs == [] then Ok([])
    else if "url" !in rs[0] then KeyError("url", 0)
    else
      match Urls(rs[1..])
      case KeyError(key, index) =>
        assert forall j :: 0 < j < |rs| ==> rs[j] == rs[1..][j - 1];
        KeyError(key, index + 1)
      case Ok(us) =>
        assert forall j :: 0 < j < |rs| ==> rs[j] == rs[1..][j - 1];
        Ok([rs[0]["url"]] + us)
  }

  /**
   * The URLs handed to the downloader: with a positive limit, those of the
   * first `min(limit, |list|)` rows, otherwise those of every row, in order.
   */
  function DownloadUrls(list: seq<Record>, limit: Option<int>): (r: Result<seq<string>>)
    ensures r.Ok? ==> |r.value| == (if CapApplies(limit) then Min(limit.value, |list|) else |list|)
    ensures r.Ok? ==> forall j :: 0 <= j < |r.value| ==> "url" in list[j] && r.value[j] == list[j]["url"]
    ensures r.KeyError? <==> SomeLacks(Capped(list, limit), "url")
    ensures r.KeyError? ==> r.key == "url" && r.index < |Capped(list, limit)| && "url" !in list[r.index]
  {
    Urls(Capped(list, limit))
  }
}
