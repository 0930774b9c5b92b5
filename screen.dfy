/**
 * The gallery screen (`Home`): its state fields, the transitions its event
 * handlers and effects perform, and what its main area shows.
 */
module Screen {
  import opened Wrappers
  import opened Text
  import opened Seqs
  import opened Catalog
  import Likes

  /** How the single catalog request ended: the parsed array, or any failure. */
  datatype FetchOutcome = Fetched(data: seq<Short>) | FetchFailed

  /** What the main area shows. */
  datatype MainView = LoadingMessage | NoVideosFound | Grid(cards: seq<Short>)

  /** The main area: the loading message, then "No videos found." or the grid of visible entries. */
  function ViewOf(loading: bool, filtered: seq<Short>): (v: MainView)
    ensures v == LoadingMessage <==> loading
    ensures v == NoVideosFound <==> !loading && filtered == []
    ensures v.Grid? <==> !loading && filtered != []
    ensures v.Grid? ==> v.cards == filtered
  {
    if loading then LoadingMessage
    else if |filtered| == 0 then NoVideosFound
    else Grid(filtered)
  }

  /** A tag button: clicking the selected tag clears the selection, clicking another selects it. */
  function NextTag(selected: Option<string>, t: string): (r: Option<string>)
    ensures r == None <==> selected == Some(t)
    ensures r != None ==> r == Some(t)
  {
    if selected == Some(t) then None else Some(t)
  }

  /** On the two states "nothing selected" and "`t` selected", clicking `t` twice returns to the start. */
  lemma NextTagTwice(selected: Option<string>, t: string)
    requires selected == None || selected == Some(t)
    ensures NextTag(NextTag(selected, t), t) == selected
  {
  }

  class Home {
    var shorts: seq<Short>
    var filtered: seq<Short>
    var loading: bool
    var q: string
    var playing: Option<Short>
    var likes: map<int, bool>
    var selectedTag: Option<string>

    /**
     * The screen's invariant: only the search box and the "All" button
     * can be used while loading; the visible list is recomputed after every change;
     * a selected tag is one of the catalog's tags; the playing entry is
     * a catalog entry.
     */
    ghost predicate Valid()
      reads this
    {
      && (loading ==> shorts == [] && selectedTag == None && playing == None)
      && filtered == Visible(shorts, q, selectedTag)
      && (selectedTag.Some? ==> selectedTag.value in AllTags(shorts))
      && (playing.Some? ==> playing.value in shorts)
    }

    /** The first render: empty catalog, loading, empty query, nothing playing, no likes, no tag. */
    constructor ()
      ensures Valid()
      ensures shorts == [] && filtered == [] && loading && q == ""
      ensures playing == None && likes == map[] && selectedTag == None
    {
      shorts, filtered, loading, q := [], [], true, "";
      playing, likes, selectedTag := None, map[], None;
    }

    function View(): MainView
      reads this
    {
      ViewOf(loading, filtered)
    }

    /** `applyFilters`: the query filter when the term is non-empty, then the tag filter when a tag is set. */
    method ApplyFilters()
      modifies this`filtered
      ensures filtered == Visible(shorts, q, selectedTag)
    {
      var term := QueryTerm(q);
      var out := shorts;
      if term != [] {
        out := Filter(out, QueryFilter(term));
      }
      if TagActive(selectedTag) {
        out := Filter(out, TagFilter(selectedTag.value));
      }
      StagedFilteringIsVisible(shorts, q, selectedTag);
      filtered := out;
    }

    /** The fetch settles once: the catalog becomes the data (or empty on failure) and loading ends. */
    method Resolve(outcome: FetchOutcome)
      requires Valid() && loading
      modifies this
      ensures Valid() && !loading
      ensures shorts == (if outcome.Fetched? then outcome.data else [])
      ensures filtered == Visible(shorts, q, None)
      ensures outcome.Fetched? && Blank(q) ==> filtered == outcome.data
      ensures outcome.FetchFailed? ==> View() == NoVideosFound
      ensures q == old(q) && likes == old(likes) && playing == None && selectedTag == None
    {
      match outcome {
        case Fetched(data) =>
          shorts := data;
          filtered := data;
        case FetchFailed =>
          shorts := [];
      }
      loading := false;
      ApplyFilters();
      if outcome.Fetched? && Blank(q) {
        BlankQueryShowsAll(shorts, q, None);
      }
    }

    /** Typing in the search box. */
    method SetQuery(text: string)
      requires Valid()
      modifies this
      ensures Valid()
      ensures q == text && filtered == Visible(shorts, text, selectedTag)
      ensures shorts == old(shorts) && loading == old(loading) && playing == old(playing)
      ensures likes == old(likes) && selectedTag == old(selectedTag)
    {
      q := text;
      ApplyFilters();
    }

    /** A like button: flips exactly the clicked item's flag. */
    method ToggleLike(id: int)
      requires Valid()
      modifies this`likes
      ensures Valid()
      ensures likes == Likes.Toggle(old(likes), id)
    {
      likes := Likes.Toggle(likes, id);
    }

    /** A tag button, offered for each of the catalog's tags. */
    method ClickTag(t: string)
      requires Valid() && t in AllTags(shorts)
      modifies this
      ensures Valid()
      ensures selectedTag == NextTag(old(selectedTag), t)
      ensures filtered == Visible(shorts, q, selectedTag)
      ensures shorts == old(shorts) && loading == old(loading) && q == old(q)
      ensures playing == old(playing) && likes == old(likes)
    {
      selectedTag := NextTag(selectedTag, t);
      assert selectedTag == None || selectedTag == Some(t);
      ApplyFilters();
    }

    /** The "All" button: clears the tag selection. */
    method ClickAll()
      requires Valid()
      modifies this
      ensures Valid()
      ensures selectedTag == None && filtered == Visible(shorts, q, None)
      ensures shorts == old(shorts) && loading == old(loading) && q == old(q)
      ensures playing == old(playing) && likes == old(likes)
    {
      selectedTag := None;
      ApplyFilters();
    }

    /** A card or its Play button: plays that entry, replacing any earlier one. */
    method Select(s: Short)
      requires Valid() && s in filtered
      modifies this`playing
      ensures Valid() && playing == Some(s)
    {
      playing := Some(s);
    }

    /** The player's Close button. */
    method Close()
      requires Valid()
      modifies this`playing
      ensures Valid() && playing == None
    {
      playing := None;
    }
  }
}
