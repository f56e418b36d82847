/** The tag editor: the suggestion list, and adding and removing tags. The
    component hands each new list to its parent; here that list is the
    result (`None` when nothing is handed on). */
module TagInput {
  import opened Base
  import opened Strings
  import opened Notes

  const MaxSuggestions: nat := 15

  /** The suggestions whose lower-cased name contains `lower`, in order. */
  function Matching(tags: seq<Tag>, lower: string): (r: seq<Tag>)
    ensures IsSubsequence(r, tags)
    ensures forall i :: 0 <= i < |r| ==> Occurs(ToLower(r[i].name), lower)
    ensures forall i :: 0 <= i < |tags| && Occurs(ToLower(tags[i].name), lower) ==> tags[i] in r
    ensures forall t :: multiset(r)[t] == if Occurs(ToLower(t.name), lower) then multiset(tags)[t] else 0
  {
    if tags == [] then []
    else
      var rest := Matching(tags[1..], lower);
      IncludesIff(ToLower(tags[0].name), lower);
      assert forall i :: 1 <= i < |tags| ==> tags[i] == tags[1..][i - 1];
      assert tags == [tags[0]] + tags[1..];
      if Includes(ToLower(tags[0].name), lower) then
        assert ([tags[0]] + rest)[1..] == rest;
        [tags[0]] + rest
      else rest
  }

  /** The `filtered` memo: with blank input the first 15 suggestions; else the
      first 15 whose lower-cased name contains the lower-cased, untrimmed
      input. */
  function Filtered(input: string, suggestions: seq<Tag>): (r: seq<Tag>)
    ensures |r| <= MaxSuggestions
    ensures IsSubsequence(r, suggestions)
    ensures Trim(input) == [] ==> r == Take(suggestions, MaxSuggestions)
    ensures Trim(input) != [] ==> forall i :: 0 <= i < |r| ==> Occurs(ToLower(r[i].name), ToLower(input))
    ensures Trim(input) != [] ==> r == Take(Matching(suggestions, ToLower(input)), MaxSuggestions)
  {
    if Trim(input) == [] then
      SubsequenceRefl(suggestions);
      PrefixOfSubsequence(suggestions, suggestions, Min(MaxSuggestions, |suggestions|));
      Take(suggestions, MaxSuggestions)
    else
      var m := Matching(suggestions, ToLower(input));
      PrefixOfSubsequence(m, suggestions, Min(MaxSuggestions, |m|));
      Take(m, MaxSuggestions)
  }

  /** A matching suggestion is shown unless 15 earlier ones already are. */
  lemma FilteredComplete(input: string, suggestions: seq<Tag>, i: nat)
    requires Trim(input) != [] && i < |suggestions| && Occurs(ToLower(suggestions[i].name), ToLower(input))
    ensures suggestions[i] in Filtered(input, suggestions) || |Filtered(input, suggestions)| == MaxSuggestions
  {
  }

  /** The normal form of a tag: trimmed, then lower-cased. */
  function Normalize(tag: string): (t: string)
    ensures |t| <= |tag|
    ensures t == [] <==> Trim(tag) == []
  {
    ToLower(Trim(tag))
  }

  /** Normalising a normal tag changes nothing. */
  lemma NormalizeIdempotent(tag: string)
    ensures Normalize(Normalize(tag)) == Normalize(tag)
  {
    var u := Trim(tag);
    var v := ToLower(u);
    if v != [] {
      LowerKeepsSpace(u[0]);
      LowerKeepsSpace(u[|u| - 1]);
    }
    TrimEndNoop(v);
    TrimStartNoop(v);
    assert Trim(v) == v;
    ToLowerIdempotent(u);
  }

  /** `addTag(tag)`: nothing for a blank or already selected tag; otherwise
      the normal form of the tag appended to the selection. */
  function AddTag(selected: seq<string>, tag: string): (r: Option<seq<string>>)
    ensures r.None? <==> Trim(tag) == [] || Normalize(tag) in selected
    ensures r.Some? ==> r.value == selected + [Normalize(tag)]
  {
    var t := Normalize(tag);
    if t == [] then None
    else if t in selected then None
    else Some(selected + [t])
  }

  /** Adding the same tag again changes nothing, a selection without
      duplicates keeps none, and every added tag is in normal form. */
  lemma AddTagProperties(selected: seq<string>, tag: string)
    ensures AddTag(selected, tag).Some? ==> AddTag(AddTag(selected, tag).value, tag).None?
    ensures AddTag(selected, tag).Some? && Distinct(selected) ==> Distinct(AddTag(selected, tag).value)
    ensures AddTag(selected, tag).Some? ==> Normalize(Normalize(tag)) == Normalize(tag)
  {
    NormalizeIdempotent(tag);
  }

  /** `removeTag(tag)`: every occurrence dropped, the rest kept in order. */
  function RemoveTag(selected: seq<string>, tag: string): (r: seq<string>)
    ensures tag !in r
    ensures IsSubsequence(r, selected)
    ensures forall t :: t != tag ==> (t in r <==> t in selected)
    ensures multiset(r) == multiset(selected)[tag := 0]
  {
    WithoutIsSubsequence(selected, tag);
    Without(selected, tag)
  }

  /** Removing a tag just added gives back the selection it was added to. */
  lemma RemoveUndoesAdd(selected: seq<string>, tag: string)
    requires AddTag(selected, tag).Some?
    ensures RemoveTag(AddTag(selected, tag).value, Normalize(tag)) == selected
  {
    var t := Normalize(tag);
    WithoutAppend(selected, [t], t);
    WithoutAbsent(selected, t);
    assert Without([t], t) == [];
  }

  /** `handleSubmit()`: adds the trimmed input when it is not blank. */
  function HandleSubmit(selected: seq<string>, input: string): (r: Option<seq<string>>)
    ensures Trim(input) == [] ==> r.None?
  {
    if Trim(input) != [] then AddTag(selected, Trim(input)) else None
  }

  /** Submitting the input is adding it as a tag. */
  lemma HandleSubmitIsAddTag(selected: seq<string>, input: string)
    ensures HandleSubmit(selected, input) == AddTag(selected, input)
  {
    TrimIdempotent(input);
  }
}
