/** The search screen: tag toggling, the shape of the notes query, the tag
    chips shown, and the grouping of the results. */
module Search {
  import opened Base
  import opened Strings
  import opened Notes
  import opened Grouping

  /** `toggleTag(name)`: an absent tag is appended, a present one is removed
      everywhere, keeping the rest in order. */
  function ToggleTag(prev: seq<string>, name: string): (r: seq<string>)
    ensures name in r <==> name !in prev
    ensures name !in prev ==> r == prev + [name]
    ensures name in prev ==> r == Without(prev, name)
    ensures forall t :: t != name ==> (t in r <==> t in prev)
  {
    if name in prev then Without(prev, name) else prev + [name]
  }

  /** A selection without duplicates stays without duplicates. */
  lemma ToggleKeepsDistinct(prev: seq<string>, name: string)
    requires Distinct(prev)
    ensures Distinct(ToggleTag(prev, name))
  {
    if name in prev {
      WithoutDistinct(prev, name);
    }
  }

  /** Toggling a tag twice: an absent tag leaves the selection as it was; a
      present one ends up moved to the end, the rest in order. */
  lemma {:induction false} ToggleTwice(prev: seq<string>, name: string)
    ensures name !in prev ==> ToggleTag(ToggleTag(prev, name), name) == prev
    ensures name in prev ==> ToggleTag(ToggleTag(prev, name), name) == Without(prev, name) + [name]
  {
    if name !in prev {
      WithoutAppend(prev, [name], name);
      WithoutAbsent(prev, name);
      assert Without([name], name) == [];
    }
  }

  /** The request `listNotes` receives. */
  datatype NotesQuery = NotesQuery(
    userId: string, token: string, search: Option<string>, tags: Option<seq<string>>,
    startDate: Option<string>, endDate: Option<string>, limit: int)

  const SearchLimit: int := 100

  function OptionalText(s: string): (r: Option<string>)
    ensures r.None? <==> s == []
    ensures r.Some? ==> r.value == s
  {
    if s == [] then None else Some(s)
  }

  /** The query: the trimmed search text, left out when blank; the selected
      tags, left out when none; each date, left out when empty; always at
      most 100 notes. */
  function SearchQuery(userId: string, token: string, search: string, selectedTags: seq<string>,
                       startDate: string, endDate: string): (q: NotesQuery)
    ensures q.userId == userId && q.token == token && q.limit == SearchLimit
    ensures q.search.None? <==> forall i :: 0 <= i < |search| ==> IsJsSpace(search[i])
    ensures q.search.Some? ==> q.search.value == Trim(search) && q.search.value != []
    ensures q.tags.None? <==> selectedTags == []
    ensures q.tags.Some? ==> q.tags.value == selectedTags
    ensures q.startDate == OptionalText(startDate) && q.endDate == OptionalText(endDate)
  {
    NotesQuery(userId, token, OptionalText(Trim(search)),
      if |selectedTags| > 0 then Some(selectedTags) else None,
      OptionalText(startDate), OptionalText(endDate), SearchLimit)
  }

  /** The search text is sent already trimmed, so trimming it again on the
      server side changes nothing. */
  lemma SearchTextIsTrimmed(userId: string, token: string, search: string, selectedTags: seq<string>,
                            startDate: string, endDate: string)
    ensures var q := SearchQuery(userId, token, search, selectedTags, startDate, endDate);
      q.search.Some? ==> Trim(q.search.value) == q.search.value
  {
    TrimIdempotent(search);
  }

  const MaxTagChips: nat := 10

  /** The tag chips shown: the first ten tags, in order. */
  function TagChips(tags: seq<Tag>): (r: seq<Tag>)
    ensures |r| <= MaxTagChips
    ensures |tags| >= MaxTagChips ==> |r| == MaxTagChips
    ensures |tags| < MaxTagChips ==> r == tags
    ensures forall i :: 0 <= i < |r| ==> r[i] == tags[i]
  {
    Take(tags, MaxTagChips)
  }

  /** The search screen's copy of `groupNotesByDate` is the timeline's: every
      result note is in exactly one group (as a multiset the groups hold the
      results), the groups are newest first, and their labels are distinct
      date labels. */
  lemma SearchGrouping(results: seq<Note>, now: int, tzOffset: int, localeDate: int -> string)
    ensures var key := DateLabeller(now, tzOffset, localeDate);
      var gs := Grouped(SortNewestFirst(results, now), key);
      multiset(Flatten(gs)) == multiset(results)
      && (forall i :: 0 <= i < |gs| ==> NewestFirst(gs[i].notes, now))
      && (forall i, j :: 0 <= i < j < |gs| ==> gs[i].title != gs[j].title)
      && (forall i, x :: 0 <= i < |gs| && x in gs[i].notes ==> key(x) == gs[i].title)
  {
    var key := DateLabeller(now, tzOffset, localeDate);
    var sorted := SortNewestFirst(results, now);
    GroupedIsPermutation(sorted, key);
    GroupedByLabel(sorted, key);
    GroupsNewestFirst(sorted, key, now);
  }
}
