/** The social screen (app/Social.jsx): follower and following ids, the suggestion filter
    and the tab switch. The queries' results are passed in. */
module Social {
  import opened Schema
  import opened Seqs

  /** `followers.map(f => f.follower_id)`. */
  function FollowerIds(rows: seq<FollowRow>): (ids: seq<UserId>)
    ensures |ids| == |rows| && forall i :: 0 <= i < |rows| ==> ids[i] == rows[i].followerId
  {
    seq(|rows|, i requires 0 <= i < |rows| => rows[i].followerId)
  }

  /** `following.map(f => f.following_id)`. */
  function FollowingIds(rows: seq<FollowRow>): (ids: seq<UserId>)
    ensures |ids| == |rows| && forall i :: 0 <= i < |rows| ==> ids[i] == rows[i].followingId
  {
    seq(|rows|, i requires 0 <= i < |rows| => rows[i].followingId)
  }

  /** `filteredSuggestedData`: the suggested users not already followed, in their order. */
  function FilterSuggested(suggested: seq<User>, followingIds: seq<UserId>): (r: seq<User>)
    ensures forall u :: u in r <==> u in suggested && u.userid !in followingIds
    ensures forall u :: multiset(r)[u] == if u.userid !in followingIds then multiset(suggested)[u] else 0
    ensures IsSubsequence(r, suggested)
    decreases |suggested|
  {
    if suggested == [] then []
    else
      var rest := FilterSuggested(suggested[1..], followingIds);
      assert forall u :: u in suggested <==> u == suggested[0] || u in suggested[1..];
      assert suggested == [suggested[0]] + suggested[1..];
      assert multiset(suggested) == multiset{suggested[0]} + multiset(suggested[1..]);
      if suggested[0].userid !in followingIds then
        assert ([suggested[0]] + rest)[1..] == rest;
        [suggested[0]] + rest
      else
        SubsequenceOfLonger(rest, suggested[0], suggested[1..]);
        rest
  }

  /** Filtering twice is filtering once. */
  lemma {:induction false} FilterSuggestedIdempotent(suggested: seq<User>, followingIds: seq<UserId>)
    ensures FilterSuggested(FilterSuggested(suggested, followingIds), followingIds)
         == FilterSuggested(suggested, followingIds)
    decreases |suggested|
  {
    if suggested != [] {
      FilterSuggestedIdempotent(suggested[1..], followingIds);
      var rest := FilterSuggested(suggested[1..], followingIds);
      if suggested[0].userid !in followingIds {
        assert ([suggested[0]] + rest)[1..] == rest;
      }
    }
  }

  /** A suggested user is shown exactly when no follow row of the viewer points at them. */
  lemma SuggestionsExcludeFollowed(suggested: seq<User>, following: seq<FollowRow>, u: User)
    ensures u in FilterSuggested(suggested, FollowingIds(following)) <==>
      u in suggested && forall i :: 0 <= i < |following| ==> following[i].followingId != u.userid
  {
    var ids := FollowingIds(following);
    if u.userid in ids {
      var k :| 0 <= k < |ids| && ids[k] == u.userid;
      assert following[k].followingId == u.userid;
    }
  }

  /** `getCurrentList`: the list of the active tab; an unknown tab shows nothing. */
  function CurrentList(activeTab: string, followers: seq<User>, following: seq<User>, suggested: seq<User>)
    : (r: seq<User>)
    ensures activeTab == "followers" ==> r == followers
    ensures activeTab == "following" ==> r == following
    ensures activeTab == "Social" ==> r == suggested
    ensures activeTab !in {"followers", "following", "Social"} ==> r == []
  {
    if activeTab == "followers" then followers
    else if activeTab == "following" then following
    else if activeTab == "Social" then suggested
    else []
  }
}
