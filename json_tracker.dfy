/**
 * json_tracker.py: read the followers export (a list of groups) and the following
 * export (the list under `relationships_following`), and report the accounts
 * followed that do not follow back, i.e. following minus followers.
 */
module JsonTracker {
  import opened Wrappers
  import opened JsonValue
  import opened NameSets
  import opened NameExtraction

  /** The printed report: three counts, then the names one per line. */
  datatype Report = Report(followerCount: nat, followingCount: nat, notFollowingBackCount: nat, notFollowingBack: seq<string>)

  /** The report for two name sets: `following_names - followers_names`, sorted. */
  function NotFollowingBackReport(followers: set<string>, following: set<string>): (r: Report)
    ensures r.followerCount == |followers| && r.followingCount == |following|
    ensures StrictlyAscending(r.notFollowingBack)
    ensures forall n :: n in r.notFollowingBack <==> n in following && n !in followers
    ensures r.notFollowingBackCount == |r.notFollowingBack| == |following - followers|
  {
    var difference := following - followers;
    Report(|followers|, |following|, |difference|, Sorted(difference))
  }

  /**
   * The whole script on the two decoded exports. The followers export is read first,
   * so its error is the one reported when both are malformed.
   */
  function Analyze(followersDoc: Json, followingDoc: Json): (r: Result<Report, ShapeError>)
    ensures r.Ok? <==> ExtractNamesFromFollowers(followersDoc).Ok? && ExtractNamesFromFollowing(followingDoc).Ok?
    ensures ExtractNamesFromFollowers(followersDoc).Err? ==> r.Err? && r.error == ExtractNamesFromFollowers(followersDoc).error
    ensures ExtractNamesFromFollowers(followersDoc).Ok? && ExtractNamesFromFollowing(followingDoc).Err? ==>
      r == Err(ExtractNamesFromFollowing(followingDoc).error)
    ensures r.Ok? ==>
      r.value == NotFollowingBackReport(ExtractNamesFromFollowers(followersDoc).value, ExtractNamesFromFollowing(followingDoc).value)
    ensures r.Ok? ==>
      var followers, following := ExtractNamesFromFollowers(followersDoc).value, ExtractNamesFromFollowing(followingDoc).value;
      && r.value.followerCount == |followers| && r.value.followingCount == |following|
      && StrictlyAscending(r.value.notFollowingBack)
      && (forall n :: n in r.value.notFollowingBack <==> n in following && n !in followers)
      && r.value.notFollowingBackCount == |r.value.notFollowingBack| == |following - followers|
  {
    var followers :- ExtractNamesFromFollowers(followersDoc);
    var following :- ExtractNamesFromFollowing(followingDoc);
    Ok(NotFollowingBackReport(followers, following))
  }

  /** The list is empty exactly when every followed account follows back. */
  lemma NoneMissingIffSubset(followers: set<string>, following: set<string>)
    ensures NotFollowingBackReport(followers, following).notFollowingBack == [] <==> following <= followers
  {
    var names := NotFollowingBackReport(followers, following).notFollowingBack;
    if names != [] {
      assert names[0] in following && names[0] !in followers;
    }
  }

  /** Followers {alice, bob}, following {bob, carol, dave}: counts 2, 3, 2, then carol and dave. */
  lemma ExampleReport()
    ensures NotFollowingBackReport({"alice", "bob"}, {"bob", "carol", "dave"}) == Report(2, 3, 2, ["carol", "dave"])
  {
    var difference := {"bob", "carol", "dave"} - {"alice", "bob"};
    assert difference == {"carol", "dave"};
    assert LexLess("carol", "dave");
    SortedIsUnique(["carol", "dave"], difference);
  }
}
