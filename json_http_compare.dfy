/**
 * json_http_compare.py: compare an older HTML followers export with the current JSON
 * followers export, and list the names present in the HTML snapshot but absent from
 * the JSON one (the subtraction `past_followers_names - current_followers_names`).
 */
module JsonHttpCompare {
  import opened Wrappers
  import opened JsonValue
  import opened NameSets
  import opened NameExtraction

  /**
   * The printed report. The second line is labelled "Current Following Count" but
   * counts the JSON followers; the third is labelled "Accounts Not Following Back"
   * but counts the names that left.
   */
  datatype Report = Report(pastFollowerCount: nat, currentFollowerCount: nat, differenceCount: nat, difference: seq<string>)

  /** The report for two name sets: past minus current, sorted. */
  function PastMinusCurrentReport(past: set<string>, current: set<string>): (r: Report)
    ensures r.pastFollowerCount == |past| && r.currentFollowerCount == |current|
    ensures StrictlyAscending(r.difference)
    ensures forall n :: n in r.difference <==> n in past && n !in current
    ensures r.differenceCount == |r.difference| == |past - current|
  {
    var difference := past - current;
    Report(|past|, |current|, |difference|, Sorted(difference))
  }

  /** The whole script: the HTML page's elements and the decoded JSON export. */
  function Analyze(followersHtml: seq<Element>, followersDoc: Json): (r: Result<Report, ShapeError>)
    ensures r.Ok? <==> ExtractNamesFromFollowers(followersDoc).Ok?
    ensures r.Err? ==> r.error == ExtractNamesFromFollowers(followersDoc).error
    ensures r.Ok? ==>
      r.value == PastMinusCurrentReport(ExtractNamesFromHtml(followersHtml), ExtractNamesFromFollowers(followersDoc).value)
    ensures r.Ok? ==>
      var past, current := ExtractNamesFromHtml(followersHtml), ExtractNamesFromFollowers(followersDoc).value;
      && r.value.pastFollowerCount == |past| && r.value.currentFollowerCount == |current|
      && StrictlyAscending(r.value.difference)
      && (forall n :: n in r.value.difference <==> n in past && n !in current)
      && r.value.differenceCount == |r.value.difference| == |past - current|
  {
    var past := ExtractNamesFromHtml(followersHtml);
    var current :- ExtractNamesFromFollowers(followersDoc);
    Ok(PastMinusCurrentReport(past, current))
  }

  /**
   * The listed names are the HTML-side link texts that the JSON export does not
   * name; a name only the JSON export has is never listed.
   */
  lemma DifferenceIsHtmlMinusJson(followersHtml: seq<Element>, followersDoc: Json, n: string)
    requires Analyze(followersHtml, followersDoc).Ok?
    ensures n in Analyze(followersHtml, followersDoc).value.difference <==>
      (exists e :: e in followersHtml && IsLink(e) && e.text == n) && n !in ExtractNamesFromFollowers(followersDoc).value
  {
  }
}
