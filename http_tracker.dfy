/**
 * http_tracker.py: the not-following-back report of json_tracker.py, computed from the
 * two HTML exports instead of the JSON ones, and printed without a count of its own.
 */
module HttpTracker {
  import opened NameSets
  import opened NameExtraction

  /** The printed report: two counts, a header, then the names one per line. */
  datatype Report = Report(followerCount: nat, followingCount: nat, notFollowingBack: seq<string>)

  /** The whole script on the two parsed pages: following minus followers, sorted. */
  function Analyze(followersHtml: seq<Element>, followingHtml: seq<Element>): (r: Report)
    ensures r.followerCount == |ExtractNamesFromHtml(followersHtml)|
    ensures r.followingCount == |ExtractNamesFromHtml(followingHtml)|
    ensures StrictlyAscending(r.notFollowingBack)
    ensures forall n :: n in r.notFollowingBack <==>
      (exists e :: e in followingHtml && IsLink(e) && e.text == n) &&
      !(exists e :: e in followersHtml && IsLink(e) && e.text == n)
  {
    var followers := ExtractNamesFromHtml(followersHtml);
    var following := ExtractNamesFromHtml(followingHtml);
    Report(|followers|, |following|, Sorted(following - followers))
  }

  /** Nothing is printed after the header exactly when every followed account follows back. */
  lemma NothingAfterHeaderIffSubset(followersHtml: seq<Element>, followingHtml: seq<Element>)
    ensures Analyze(followersHtml, followingHtml).notFollowingBack == [] <==>
      ExtractNamesFromHtml(followingHtml) <= ExtractNamesFromHtml(followersHtml)
  {
    var names := Analyze(followersHtml, followingHtml).notFollowingBack;
    if names != [] {
      assert names[0] in names;
    }
  }

  /** Anchors without `href`, and elements that are not anchors, never reach the report. */
  lemma NonLinksAreIgnored(followersHtml: seq<Element>, followingHtml: seq<Element>, e: Element)
    requires !IsLink(e)
    ensures Analyze(followersHtml, followingHtml + [e]) == Analyze(followersHtml, followingHtml)
    ensures Analyze(followersHtml + [e], followingHtml) == Analyze(followersHtml, followingHtml)
  {
    NonLinkAddsNothing(followingHtml, e);
    NonLinkAddsNothing(followersHtml, e);
  }
}
