/**
 * The Twitter client helpers: the cached account of the signed-in user and the
 * re-fetch of a list of tweets that keeps the list's order.
 *
 * The Twitter client is not part of this model: what it answers is passed in
 * (`fetched`, `answered`).
 */
module TwitterApi {
  import opened Wrappers
  import opened Sequences

  datatype Tweet = Tweet(idStr: string, text: string)

  /** The account settings of the signed-in user, as the server returns them. */
  datatype Account = Account(screenName: string)

  /**
   * The module-level account cache. `fetches` counts the requests made to the
   * server for the account settings.
   */
  class AccountSession {
    var activeAccount: Option<Account>
    var fetches: nat

    /** The cache is filled by the first and only request. */
    ghost predicate Valid()
      reads this
    {
      (activeAccount.None? <==> fetches == 0) && fetches <= 1
    }

    constructor ()
      ensures Valid() && activeAccount.None? && fetches == 0
    {
      activeAccount := None;
      fetches := 0;
    }

    /** `loggedInUserAccount`: the cached account, requesting it (answer `fetched`) only when none is cached. */
    method LoggedInUserAccount(fetched: Account) returns (account: Account)
      requires Valid()
      modifies this
      ensures Valid()
      ensures old(activeAccount).Some? ==>
                account == old(activeAccount).value && activeAccount == old(activeAccount) && fetches == old(fetches)
      ensures old(activeAccount).None? ==> account == fetched && activeAccount == Some(fetched) && fetches == 1
      ensures activeAccount == Some(account)
    {
      if activeAccount.None? {
        activeAccount := Some(fetched);
        fetches := fetches + 1;
      }
      account := activeAccount.value;
    }
  }

  function Ids(tweets: seq<Tweet>): (ids: seq<string>)
    ensures |ids| == |tweets|
    ensures forall i :: 0 <= i < |tweets| ==> ids[i] == tweets[i].idStr
  {
    seq(|tweets|, i requires 0 <= i < |tweets| => tweets[i].idStr)
  }

  /** `find`: the first tweet with the given id. */
  function FindById(tweets: seq<Tweet>, id: string): (r: Option<Tweet>)
    ensures r.None? <==> forall t :: t in tweets ==> t.idStr != id
    ensures r.Some? ==> r.value in tweets && r.value.idStr == id
    ensures r.Some? ==> exists k :: 0 <= k < |tweets| && tweets[k] == r.value &&
                                    forall j :: 0 <= j < k ==> tweets[j].idStr != id
    decreases |tweets|
  {
    if |tweets| == 0 then None
    else if tweets[0].idStr == id then Some(tweets[0])
    else
      var r := FindById(tweets[1..], id);
      assert forall t :: t in tweets ==> t == tweets[0] || t in tweets[1..];
      if r.Some? then
        var k :| 0 <= k < |tweets[1..]| && tweets[1..][k] == r.value &&
                 forall j :: 0 <= j < k ==> tweets[1..][j].idStr != id;
        assert tweets[k + 1] == r.value;
        r
      else r
  }

  /** For each id in order, the first answered tweet with that id; ids the server did not return are dropped. */
  function Reordered(ids: seq<string>, answered: seq<Tweet>): seq<Tweet>
    decreases |ids|
  {
    if |ids| == 0 then []
    else
      match FindById(answered, ids[0])
      case Some(t) => [t] + Reordered(ids[1..], answered)
      case None => Reordered(ids[1..], answered)
  }

  /** The refreshed list is no longer than the requested ids and holds answered tweets only. */
  lemma {:induction false} ReorderedFromAnswer(ids: seq<string>, answered: seq<Tweet>)
    ensures |Reordered(ids, answered)| <= |ids|
    ensures forall t :: t in Reordered(ids, answered) ==> t in answered && t.idStr in ids
    decreases |ids|
  {
    if |ids| > 0 {
      ReorderedFromAnswer(ids[1..], answered);
      var rest := Reordered(ids[1..], answered);
      match FindById(answered, ids[0])
      case Some(t) =>
        assert forall x :: x in [t] + rest ==> x == t || x in rest;
      case None =>
    }
  }

  /** The ids of the refreshed list appear in the requested order. */
  lemma {:induction false} ReorderedKeepsOrder(ids: seq<string>, answered: seq<Tweet>)
    ensures Subsequence(Ids(Reordered(ids, answered)), ids)
    decreases |ids|
  {
    if |ids| > 0 {
      ReorderedKeepsOrder(ids[1..], answered);
      var rest := Reordered(ids[1..], answered);
      var r := Reordered(ids, answered);
      match FindById(answered, ids[0])
      case Some(t) =>
        assert r == [t] + rest;
        assert Ids(r)[1..] == Ids(rest);
      case None =>
        SubsequenceDropHead(Ids(r), ids);
    }
  }

  /** Every requested id the server answered for appears in the refreshed list. */
  lemma {:induction false} ReorderedComplete(ids: seq<string>, answered: seq<Tweet>, i: int)
    requires 0 <= i < |ids| && exists t :: t in answered && t.idStr == ids[i]
    ensures FindById(answered, ids[i]).Some? && FindById(answered, ids[i]).value in Reordered(ids, answered)
    decreases |ids|
  {
    if i > 0 {
      ReorderedComplete(ids[1..], answered, i - 1);
    }
  }

  /** `refreshTweets`: nothing without a list; otherwise the answered copies in the list's order. */
  method RefreshTweets(tweets: Option<seq<Tweet>>, answered: seq<Tweet>) returns (r: Option<seq<Tweet>>)
    ensures r.None? <==> tweets.None?
    ensures r.Some? ==> r.value == Reordered(Ids(tweets.value), answered)
  {
    if tweets.None? {
      return None;
    }
    var tweetIds := Ids(tweets.value);
    var freshTweets: seq<Tweet> := [];
    for i := 0 to |tweetIds|
      invariant freshTweets + Reordered(tweetIds[i..], answered) == Reordered(tweetIds, answered)
    {
      assert tweetIds[i..][1..] == tweetIds[i + 1..];
      var t := FindById(answered, tweetIds[i]);
      if t.Some? {
        freshTweets := freshTweets + [t.value];
      }
    }
    return Some(freshTweets);
  }
}
