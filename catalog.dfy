/**
 * The gallery's catalog entries and the pure derivations the screen computes
 * from them: the visible list (the filter engine) and the tag list.
 */
module Catalog {
  import opened Wrappers
  import opened Text
  import opened Seqs

  /** One catalog entry, as the `/api/shorts` endpoint returns it. */
  datatype Short = Short(id: int, title: string, videoUrl: string, tags: seq<string>)

  /** The search term derived from the query box: `q.trim().toLowerCase()`. */
  function QueryTerm(q: string): string
  {
    ToLower(Trim(q))
  }

  /** `tags.some((t) => t.toLowerCase().includes(term))` */
  predicate SomeTagContains(tags: seq<string>, term: string)
  {
    tags != [] && (Contains(ToLower(tags[0]), term) || SomeTagContains(tags[1..], term))
  }

  /** `some` holds exactly when one of the lower-cased tags includes the term. */
  lemma {:induction false} SomeTagContainsIff(tags: seq<string>, term: string)
    ensures SomeTagContains(tags, term) <==> exists k :: 0 <= k < |tags| && Contains(ToLower(tags[k]), term)
  {
    if tags != [] {
      SomeTagContainsIff(tags[1..], term);
      if exists k :: 0 <= k < |tags| && Contains(ToLower(tags[k]), term) {
        var k :| 0 <= k < |tags| && Contains(ToLower(tags[k]), term);
        if k > 0 {
          assert tags[1..][k - 1] == tags[k];
        }
      }
      if SomeTagContains(tags[1..], term) && !Contains(ToLower(tags[0]), term) {
        var k :| 0 <= k < |tags[1..]| && Contains(ToLower(tags[1..][k]), term);
        assert tags[k + 1] == tags[1..][k];
      }
    }
  }

  /** A query with no surrounding whitespace and no upper-case ASCII letter is its own search term. */
  lemma QueryTermOfPlainQuery(q: string)
    requires q != [] && !IsWhitespace(q[0]) && !IsWhitespace(q[|q| - 1])
    requires forall k :: 0 <= k < |q| ==> !('A' <= q[k] <= 'Z')
    ensures QueryTerm(q) == q
  {
    TrimUnpadded(q);
  }

  /** Lower-cased title, or some lower-cased tag, includes `term`. */
  predicate MatchesQuery(s: Short, term: string)
  {
    Contains(ToLower(s.title), term) || SomeTagContains(s.tags, term)
  }

  /** `s.tags.includes(tag)`: exact, case-sensitive membership. */
  predicate HasTag(s: Short, tag: string)
  {
    tag in s.tags
  }

  /** JavaScript truthiness of `selectedTag`: neither null nor the empty string. */
  predicate TagActive(selected: Option<string>)
  {
    selected.Some? && selected.value != ""
  }

  function QueryFilter(term: string): Short -> bool
  {
    s => MatchesQuery(s, term)
  }

  function TagFilter(tag: string): Short -> bool
  {
    s => HasTag(s, tag)
  }

  /** The rule of the visible list: the query branch AND the tag branch. */
  predicate Admits(term: string, selected: Option<string>, s: Short)
  {
    (term == [] || MatchesQuery(s, term)) &&
    (!TagActive(selected) || HasTag(s, selected.value))
  }

  function Rule(term: string, selected: Option<string>): Short -> bool
  {
    s => Admits(term, selected, s)
  }

  /** The visible list: the catalog entries the rule admits, in catalog order. */
  function Visible(shorts: seq<Short>, q: string, selected: Option<string>): seq<Short>
  {
    Filter(shorts, Rule(QueryTerm(q), selected))
  }

  /** Every visible entry is a catalog entry the rule admits. */
  lemma {:induction false} VisibleSound(shorts: seq<Short>, q: string, selected: Option<string>)
    ensures forall k :: 0 <= k < |Visible(shorts, q, selected)| ==>
              Visible(shorts, q, selected)[k] in shorts &&
              Admits(QueryTerm(q), selected, Visible(shorts, q, selected)[k])
  {
  }

  /** Every catalog entry the rule admits is visible. */
  lemma {:induction false} VisibleComplete(shorts: seq<Short>, q: string, selected: Option<string>)
    ensures forall k :: 0 <= k < |shorts| && Admits(QueryTerm(q), selected, shorts[k]) ==>
              shorts[k] in Visible(shorts, q, selected)
  {
  }

  /** The visible list keeps the catalog's order: filtering never reorders. */
  lemma {:induction false} VisibleKeepsOrder(shorts: seq<Short>, q: string, selected: Option<string>)
    ensures IsSubsequence(Visible(shorts, q, selected), shorts)
  {
    FilterIsSubsequence(shorts, Rule(QueryTerm(q), selected));
  }

  /** Each admitted entry is visible as often as the catalog holds it; the others not at all. */
  lemma {:induction false} VisibleCounts(shorts: seq<Short>, q: string, selected: Option<string>)
    ensures forall s :: multiset(Visible(shorts, q, selected))[s] ==
              if Admits(QueryTerm(q), selected, s) then multiset(shorts)[s] else 0
  {
    FilterCounts(shorts, Rule(QueryTerm(q), selected));
  }

  /** An empty (or all-whitespace) query with no active tag shows the whole catalog, in order. */
  lemma {:induction false} BlankQueryShowsAll(shorts: seq<Short>, q: string, selected: Option<string>)
    requires Blank(q)
    requires !TagActive(selected)
    ensures Visible(shorts, q, selected) == shorts
  {
    TrimEmptyIffBlank(q);
    FilterAllPass(shorts, Rule(QueryTerm(q), selected));
  }

  /** Selecting the empty tag filters like selecting none: `""` is falsy. */
  lemma {:induction false} EmptyTagIsNoTag(shorts: seq<Short>, q: string)
    ensures Visible(shorts, q, Some("")) == Visible(shorts, q, None)
  {
    var term := QueryTerm(q);
    FilterExtensional(shorts, Rule(term, Some("")), Rule(term, None));
  }

  /** Running the filter engine on its own output changes nothing. */
  lemma {:induction false} VisibleIdempotent(shorts: seq<Short>, q: string, selected: Option<string>)
    ensures Visible(Visible(shorts, q, selected), q, selected) == Visible(shorts, q, selected)
  {
    FilterIdempotent(shorts, Rule(QueryTerm(q), selected));
  }

  /** The query filter and the tag filter may be applied in either order. */
  lemma {:induction false} QueryAndTagCommute(shorts: seq<Short>, term: string, tag: string)
    ensures Filter(Filter(shorts, QueryFilter(term)), TagFilter(tag)) ==
            Filter(Filter(shorts, TagFilter(tag)), QueryFilter(term))
  {
    FilterCommute(shorts, QueryFilter(term), TagFilter(tag));
  }

  /** Helper for `StagedFilteringIsVisible`: the rule seen through the two stage filters. */
  lemma RuleSplits(term: string, selected: Option<string>)
    ensures forall s :: Rule(term, selected)(s) ==
              ((term == [] || QueryFilter(term)(s)) && (!TagActive(selected) || TagFilter(selected.value)(s)))
  {
  }

  /**
   * The staged filtering of `applyFilters` (the query filter only when the
   * term is non-empty, then the tag filter only when the tag is truthy)
   * yields the visible list.
   */
  lemma {:induction false} StagedFilteringIsVisible(shorts: seq<Short>, q: string, selected: Option<string>)
    ensures
      var term := QueryTerm(q);
      var afterQuery := if term != [] then Filter(shorts, QueryFilter(term)) else shorts;
      (if TagActive(selected) then Filter(afterQuery, TagFilter(selected.value)) else afterQuery)
        == Visible(shorts, q, selected)
  {
    var term := QueryTerm(q);
    var rule := Rule(term, selected);
    RuleSplits(term, selected);
    if term != [] && TagActive(selected) {
      FilterFuse(shorts, QueryFilter(term), TagFilter(selected.value), rule);
    } else if term != [] {
      FilterExtensional(shorts, QueryFilter(term), rule);
    } else if TagActive(selected) {
      FilterExtensional(shorts, TagFilter(selected.value), rule);
    } else {
      FilterAllPass(shorts, rule);
    }
  }

  /** Every tag of every entry, in catalog order: `shorts.flatMap((s) => s.tags)`. */
  function TagsOf(shorts: seq<Short>): seq<string>
  {
    if shorts == [] then [] else shorts[0].tags + TagsOf(shorts[1..])
  }

  /** The flattened tag list holds exactly the tags of the entries. */
  lemma {:induction false} TagsOfMembers(shorts: seq<Short>)
    ensures forall i, k :: 0 <= i < |shorts| && 0 <= k < |shorts[i].tags| ==> shorts[i].tags[k] in TagsOf(shorts)
    ensures forall t :: t in TagsOf(shorts) ==> exists i :: 0 <= i < |shorts| && t in shorts[i].tags
  {
    if shorts != [] {
      TagsOfMembers(shorts[1..]);
      forall i, k | 0 <= i < |shorts| && 0 <= k < |shorts[i].tags|
        ensures shorts[i].tags[k] in TagsOf(shorts)
      {
        if i > 0 {
          assert shorts[i] == shorts[1..][i - 1];
        }
      }
      forall t | t in TagsOf(shorts) ensures exists i :: 0 <= i < |shorts| && t in shorts[i].tags {
        if t !in shorts[0].tags {
          var i :| 0 <= i < |shorts[1..]| && t in shorts[1..][i].tags;
          assert shorts[i + 1] == shorts[1..][i];
        }
      }
    }
  }

  /** `allTags`: every tag once, in order of first appearance in the catalog. */
  function AllTags(shorts: seq<Short>): seq<string>
  {
    Dedup(TagsOf(shorts))
  }

  /** `allTags` has no duplicates, holds exactly the tags of the catalog, and lists them by first appearance. */
  lemma {:induction false} AllTagsCharacterization(shorts: seq<Short>)
    ensures NoDuplicates(AllTags(shorts))
    ensures forall t :: t in AllTags(shorts) <==> exists i :: 0 <= i < |shorts| && t in shorts[i].tags
    ensures forall i, j :: 0 <= i < j < |AllTags(shorts)| ==>
              FirstIndex(TagsOf(shorts), AllTags(shorts)[i]) < FirstIndex(TagsOf(shorts), AllTags(shorts)[j])
  {
    var all := TagsOf(shorts);
    TagsOfMembers(shorts);
    DedupFirstOccurrenceOrder(all);
    forall t ensures t in AllTags(shorts) <==> t in all {
      if t in all {
        var k :| 0 <= k < |all| && all[k] == t;
      }
    }
    forall t | exists i :: 0 <= i < |shorts| && t in shorts[i].tags ensures t in all {
      var i :| 0 <= i < |shorts| && t in shorts[i].tags;
      var k :| 0 <= k < |shorts[i].tags| && shorts[i].tags[k] == t;
    }
  }
}
