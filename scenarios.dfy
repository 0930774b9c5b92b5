/**
 * Worked examples of the gallery's behaviour: a two-entry catalog searched
 * and filtered by tag, a failed fetch, liking one item twice, and playing
 * two entries in turn.
 */
module Scenarios {
  import opened Wrappers
  import opened Text
  import opened Seqs
  import opened Catalog
  import opened Screen
  import Likes

  const CatFun := Short(1, "Cat Fun", "", ["cats", "funny"])
  const DogRun := Short(2, "Dog Run", "", ["dogs"])

  lemma LoweredScenarioText()
    ensures ToLower(CatFun.title) == "cat fun" && ToLower(DogRun.title) == "dog run"
    ensures ToLower("cats") == "cats" && ToLower("funny") == "funny"
  {
  }

  lemma {:induction false} CatFunMissesDog()
    ensures !MatchesQuery(CatFun, "dog")
  {
    LoweredScenarioText();
    NotContainsWithoutFirstChar("cat fun", "dog");
    NotContainsWithoutFirstChar("cats", "dog");
    NotContainsWithoutFirstChar("funny", "dog");
    assert ["cats", "funny"][1..] == ["funny"];
  }

  lemma {:induction false} DogRunMatchesDog()
    ensures MatchesQuery(DogRun, "dog")
  {
    LoweredScenarioText();
    assert Contains("dog run", "dog");
  }

  lemma {:induction false} BothMatchUn()
    ensures MatchesQuery(CatFun, "un") && MatchesQuery(DogRun, "un")
  {
    LoweredScenarioText();
    assert Contains("cat fun", "un");
    assert Contains("dog run", "un");
  }

  /** Searching "dog" shows only "Dog Run". */
  lemma {:induction false} SearchDog()
    ensures Visible([CatFun, DogRun], "dog", None) == [DogRun]
  {
    QueryTermOfPlainQuery("dog");
    CatFunMissesDog();
    DogRunMatchesDog();
    FilterTwo(CatFun, DogRun, Rule("dog", None));
  }

  /** Selecting the tag "cats" with an empty query shows only "Cat Fun". */
  lemma {:induction false} SelectCats()
    ensures Visible([CatFun, DogRun], "", Some("cats")) == [CatFun]
  {
    FilterTwo(CatFun, DogRun, Rule("", Some("cats")));
  }

  /** Searching "un" matches inside "fun" and "run": both entries show, in catalog order. */
  lemma {:induction false} SearchUn()
    ensures Visible([CatFun, DogRun], "un", None) == [CatFun, DogRun]
  {
    QueryTermOfPlainQuery("un");
    BothMatchUn();
    FilterTwo(CatFun, DogRun, Rule("un", None));
  }

  /** A failed fetch ends loading with an empty catalog and the "No videos found." message. */
  method FailedFetch() returns (catalog: seq<Short>, stillLoading: bool, view: MainView)
    ensures catalog == [] && !stillLoading && view == NoVideosFound
  {
    var home := new Home();
    home.Resolve(FetchFailed);
    catalog, stillLoading, view := home.shorts, home.loading, home.View();
  }

  /** Liking one item twice: liked after the first click, not after the second. */
  method LikeTwice(id: int) returns (afterFirst: bool, afterSecond: bool)
    ensures afterFirst && !afterSecond
  {
    var home := new Home();
    home.ToggleLike(id);
    afterFirst := Likes.Liked(home.likes, id);
    home.ToggleLike(id);
    afterSecond := Likes.Liked(home.likes, id);
  }

  /** Playing "Cat Fun" then "Dog Run" leaves only "Dog Run" playing; Close then stops it. */
  method PlayTwoThenClose() returns (afterSecond: Option<Short>, afterClose: Option<Short>)
    ensures afterSecond == Some(DogRun) && afterClose == None
  {
    var home := new Home();
    home.Resolve(Fetched([CatFun, DogRun]));
    assert home.filtered == [CatFun, DogRun];
    home.Select(CatFun);
    home.Select(DogRun);
    afterSecond := home.playing;
    home.Close();
    afterClose := home.playing;
  }

  /** Typing "dog" into the loaded screen narrows the grid to "Dog Run". */
  method SearchOnScreen() returns (view: MainView)
    ensures view == Grid([DogRun])
  {
    var home := new Home();
    home.Resolve(Fetched([CatFun, DogRun]));
    home.SetQuery("dog");
    SearchDog();
    view := home.View();
  }
}
