/** `groupNotesByDate` and the section list built from its result. The
    Timeline and Search screens each carry an identical copy of the
    grouping function; both are this one. */
module Grouping {
  import opened Base
  import opened Dates
  import opened Notes

  /** The creation time of a note in milliseconds (now, when unset). */
  function NoteTime(n: Note, now: int): int {
    ProtoTimestampToMillis(n.createdAt, now)
  }

  /** The label `groupNotesByDate` files a note under, at the clock reading
      `now`, with local offset `tzOffset` from UTC and the locale's rendering
      `localeDate` of a calendar day. The bucketing below is stated for any
      labelling `key`; this is the one the screens use. */
  function DateLabeller(now: int, tzOffset: int, localeDate: int -> string): Note -> string {
    n => FormatDateGroup(NoteTime(n, now), now, tzOffset, localeDate)
  }

  datatype Group = Group(title: string, notes: seq<Note>)

  // ---------------------------------------------------------------------
  // Sorting a copy newest first (the comparator `db - da`, stable sort)

  predicate NewestFirst(s: seq<Note>, now: int) {
    forall i, j :: 0 <= i < j < |s| ==> NoteTime(s[i], now) >= NoteTime(s[j], now)
  }

  /** No note of `s` is newer than `t`. */
  predicate AllAtMost(s: seq<Note>, t: int, now: int) {
    forall i :: 0 <= i < |s| ==> NoteTime(s[i], now) <= t
  }

  /** Places `x` before the first note that is not newer than it. */
  function Insert(x: Note, s: seq<Note>, now: int): (r: seq<Note>)
    ensures multiset(r) == multiset(s) + multiset{x}
    ensures |r| == |s| + 1
  {
    if s == [] || NoteTime(x, now) >= NoteTime(s[0], now) then [x] + s
    else
      assert s == [s[0]] + s[1..];
      [s[0]] + Insert(x, s[1..], now)
  }

  lemma ConsNewestFirst(a: Note, s: seq<Note>, now: int)
    requires NewestFirst(s, now) && AllAtMost(s, NoteTime(a, now), now)
    ensures NewestFirst([a] + s, now)
  {
    forall i, j | 0 <= i < j < |[a] + s|
      ensures NoteTime(([a] + s)[i], now) >= NoteTime(([a] + s)[j], now)
    {
      assert ([a] + s)[j] == s[j - 1];
      if i > 0 { assert ([a] + s)[i] == s[i - 1]; }
    }
  }

  lemma {:induction false} InsertAtMost(x: Note, s: seq<Note>, t: int, now: int)
    requires AllAtMost(s, t, now) && NoteTime(x, now) <= t
    ensures AllAtMost(Insert(x, s, now), t, now)
  {
    if !(s == [] || NoteTime(x, now) >= NoteTime(s[0], now)) {
      InsertAtMost(x, s[1..], t, now);
      var r := Insert(x, s[1..], now);
      assert forall i :: 0 < i < |r| + 1 ==> ([s[0]] + r)[i] == r[i - 1];
    } else {
      assert forall i :: 0 < i < |s| + 1 ==> ([x] + s)[i] == s[i - 1];
    }
  }

  lemma {:induction false} InsertNewestFirst(x: Note, s: seq<Note>, now: int)
    requires NewestFirst(s, now)
    ensures NewestFirst(Insert(x, s, now), now)
  {
    if s == [] || NoteTime(x, now) >= NoteTime(s[0], now) {
      ConsNewestFirst(x, s, now);
    } else {
      assert NewestFirst(s[1..], now);
      InsertNewestFirst(x, s[1..], now);
      InsertAtMost(x, s[1..], NoteTime(s[0], now), now);
      ConsNewestFirst(s[0], Insert(x, s[1..], now), now);
    }
  }

  /** `[...notes].sort((a, b) => time(b) - time(a))`: a copy, newest first,
      ties kept in input order. */
  function SortNewestFirst(s: seq<Note>, now: int): (r: seq<Note>)
    ensures multiset(r) == multiset(s)
    ensures |r| == |s|
    ensures NewestFirst(r, now)
  {
    if s == [] then []
    else
      assert s == [s[0]] + s[1..];
      var rest := SortNewestFirst(s[1..], now);
      InsertNewestFirst(s[0], rest, now);
      Insert(s[0], rest, now)
  }

  // ---------------------------------------------------------------------
  // The specification of bucketing by label, in first-seen order

  /** The distinct labels of `s`, in order of first occurrence. */
  function LabelsInOrder(s: seq<Note>, key: Note -> string): seq<string> {
    if s == [] then []
    else
      var prev := LabelsInOrder(s[..|s| - 1], key);
      var l := key(s[|s| - 1]);
      if l in prev then prev else prev + [l]
  }

  /** The notes of `s` with label `l`, in order. */
  function WithLabel(s: seq<Note>, key: Note -> string, l: string): seq<Note> {
    if s == [] then []
    else WithLabel(s[..|s| - 1], key, l) + (if key(s[|s| - 1]) == l then [s[|s| - 1]] else [])
  }

  /** One group per distinct label, in first-seen order, each holding the
      notes of that label in order. */
  function Grouped(s: seq<Note>, key: Note -> string): seq<Group> {
    var labels := LabelsInOrder(s, key);
    seq(|labels|, i requires 0 <= i < |labels| => Group(labels[i], WithLabel(s, key, labels[i])))
  }

  /** All notes of the groups, group after group. */
  function Flatten(gs: seq<Group>): seq<Note> {
    if gs == [] then [] else Flatten(gs[..|gs| - 1]) + gs[|gs| - 1].notes
  }

  // ---------------------------------------------------------------------
  // The imperative bucketing loop and the entry point

  /** The `for` loop over the sorted copy that fills the `groups` record,
      followed by `Object.entries(groups).map(...)`. The record is a map
      plus the order in which its keys were first set, which is the order
      `Object.entries` reports for keys that are not array indices. */
  method GroupSorted(sorted: seq<Note>, key: Note -> string) returns (result: seq<Group>)
    ensures result == Grouped(sorted, key)
  {
    var groups: map<string, seq<Note>> := map[];
    var keys: seq<string> := [];
    var i := 0;
    while i < |sorted|
      invariant 0 <= i <= |sorted|
      invariant keys == LabelsInOrder(sorted[..i], key)
      invariant forall l :: l in groups <==> l in keys
      invariant forall l :: l in groups ==> groups[l] == WithLabel(sorted[..i], key, l)
    {
      var note := sorted[i];
      var title := key(note);
      assert sorted[..i + 1][..i] == sorted[..i];
      assert sorted[..i + 1][i] == note;
      if title !in groups {
        WithLabelAbsent(sorted[..i], key, title);
        groups := groups[title := []];
        keys := keys + [title];
      }
      groups := groups[title := groups[title] + [note]];
      i := i + 1;
    }
    assert sorted[..i] == sorted;
    result := [];
    var k := 0;
    while k < |keys|
      invariant 0 <= k <= |keys|
      invariant |result| == k
      invariant forall j :: 0 <= j < k ==> result[j] == Group(keys[j], groups[keys[j]])
    {
      result := result + [Group(keys[k], groups[keys[k]])];
      k := k + 1;
    }
  }

  /** `groupNotesByDate(notes)`: sort a copy newest first, then bucket it
      by date label. */
  method GroupNotesByDate(notes: seq<Note>, now: int, tzOffset: int, localeDate: int -> string)
    returns (result: seq<Group>)
    ensures result == Grouped(SortNewestFirst(notes, now), DateLabeller(now, tzOffset, localeDate))
  {
    var sorted := SortNewestFirst(notes, now);
    result := GroupSorted(sorted, DateLabeller(now, tzOffset, localeDate));
  }

  // ---------------------------------------------------------------------
  // Properties of the specification

  /** Every label of `s` is listed, and only labels of `s` are. */
  lemma {:induction false} LabelsInOrderComplete(s: seq<Note>, key: Note -> string)
    ensures forall q :: 0 <= q < |s| ==> key(s[q]) in LabelsInOrder(s, key)
    ensures forall l :: l in LabelsInOrder(s, key) ==> exists q :: 0 <= q < |s| && key(s[q]) == l
  {
    if s != [] {
      var init := s[..|s| - 1];
      LabelsInOrderComplete(init, key);
      forall q | 0 <= q < |s| ensures key(s[q]) in LabelsInOrder(s, key) {
        if q < |init| { assert s[q] == init[q]; }
      }
      forall l | l in LabelsInOrder(s, key) ensures exists q :: 0 <= q < |s| && key(s[q]) == l {
        if l in LabelsInOrder(init, key) {
          var q :| 0 <= q < |init| && key(init[q]) == l;
          assert s[q] == init[q];
        } else {
          assert key(s[|s| - 1]) == l;
        }
      }
    }
  }

  /** A label that no note of `s` has selects nothing. */
  lemma {:induction false} WithLabelAbsent(s: seq<Note>, key: Note -> string, l: string)
    requires l !in LabelsInOrder(s, key)
    ensures WithLabel(s, key, l) == []
  {
    if s != [] {
      var init := s[..|s| - 1];
      assert LabelsInOrder(init, key) <= LabelsInOrder(s, key);
      WithLabelAbsent(init, key, l);
    }
  }

  /** No label is listed twice. */
  lemma {:induction false} LabelsDistinct(s: seq<Note>, key: Note -> string)
    ensures Distinct(LabelsInOrder(s, key))
  {
    if s != [] {
      LabelsDistinct(s[..|s| - 1], key);
    }
  }

  /** A newest-first sequence without its last note is newest first, and
      no note in it is older than that last note. */
  lemma NewestFirstInit(s: seq<Note>, now: int)
    requires s != [] && NewestFirst(s, now)
    ensures NewestFirst(s[..|s| - 1], now)
    ensures forall y :: y in s[..|s| - 1] ==> NoteTime(y, now) >= NoteTime(s[|s| - 1], now)
  {
    var init := s[..|s| - 1];
    forall y | y in init ensures NoteTime(y, now) >= NoteTime(s[|s| - 1], now) {
      var p :| 0 <= p < |init| && init[p] == y;
      assert s[p] == y;
    }
  }

  /** A note no newer than every note of a newest-first sequence can follow it. */
  lemma SnocNewestFirst(w: seq<Note>, x: Note, now: int)
    requires NewestFirst(w, now)
    requires forall y :: y in w ==> NoteTime(y, now) >= NoteTime(x, now)
    ensures NewestFirst(w + [x], now)
  {
    var r := w + [x];
    forall i, j | 0 <= i < j < |r| ensures NoteTime(r[i], now) >= NoteTime(r[j], now) {
      assert r[i] == w[i];
      if j < |w| {
        assert r[j] == w[j];
      } else {
        assert r[i] in w;
      }
    }
  }

  /** Every note selected for `l` has label `l`, and selection keeps the
      newest-first order. */
  lemma {:induction false} WithLabelSound(s: seq<Note>, key: Note -> string, l: string, now: int)
    ensures forall x :: x in WithLabel(s, key, l) ==> x in s && key(x) == l
    ensures NewestFirst(s, now) ==> NewestFirst(WithLabel(s, key, l), now)
  {
    if s != [] {
      var init := s[..|s| - 1];
      var last := s[|s| - 1];
      WithLabelSound(init, key, l, now);
      assert s == init + [last];
      if NewestFirst(s, now) && key(last) == l {
        NewestFirstInit(s, now);
        SnocNewestFirst(WithLabel(init, key, l), last, now);
      }
    }
  }

  /** The notes of the listed groups, for any distinct list of labels, as
      they are gathered group after group. */
  function Gathered(labels: seq<string>, s: seq<Note>, key: Note -> string): seq<Note> {
    if labels == [] then []
    else Gathered(labels[..|labels| - 1], s, key) + WithLabel(s, key, labels[|labels| - 1])
  }

  /** Appending a note adds it to the notes of its own label only. */
  lemma WithLabelSnoc(s: seq<Note>, x: Note, key: Note -> string, l: string)
    ensures WithLabel(s + [x], key, l) == WithLabel(s, key, l) + (if key(x) == l then [x] else [])
  {
    assert (s + [x])[..|s|] == s;
  }

  /** Dropping the last label keeps a label list distinct, and that label
      is not among the others. */
  lemma DistinctInit(labels: seq<string>)
    requires labels != [] && Distinct(labels)
    ensures Distinct(labels[..|labels| - 1]) && labels[|labels| - 1] !in labels[..|labels| - 1]
  {
  }

  /** Appending one note adds it to the gathering of any distinct label
      list that holds its label, and to no other. */
  lemma {:induction false} GatheredSnoc(labels: seq<string>, s: seq<Note>, x: Note, key: Note -> string)
    requires Distinct(labels)
    ensures multiset(Gathered(labels, s + [x], key))
      == multiset(Gathered(labels, s, key)) + (if key(x) in labels then multiset{x} else multiset{})
  {
    if labels != [] {
      var init := labels[..|labels| - 1];
      var l := labels[|labels| - 1];
      DistinctInit(labels);
      GatheredSnoc(init, s, x, key);
      WithLabelSnoc(s, x, key, l);
      var g, w := Gathered(init, s, key), WithLabel(s, key, l);
      var m := if key(x) in init then multiset{x} else multiset{};
      var n := if key(x) == l then multiset{x} else multiset{};
      assert multiset(Gathered(labels, s + [x], key)) == (multiset(g) + m) + (multiset(w) + n);
      UnionRegroup(multiset(g), m, multiset(w), n);
      assert (if key(x) in labels then multiset{x} else multiset{}) == m + n;
    }
  }

  lemma UnionRegroup<T>(a: multiset<T>, m: multiset<T>, b: multiset<T>, n: multiset<T>)
    ensures (a + m) + (b + n) == (a + b) + (m + n)
  {
  }

  lemma {:induction false} GatheredIsPermutation(s: seq<Note>, key: Note -> string)
    ensures multiset(Gathered(LabelsInOrder(s, key), s, key)) == multiset(s)
  {
    if s != [] {
      var init := s[..|s| - 1];
      var x := s[|s| - 1];
      assert s == init + [x];
      var before := LabelsInOrder(init, key);
      GatheredIsPermutation(init, key);
      LabelsDistinct(init, key);
      GatheredSnoc(before, init, x, key);
      if key(x) !in before {
        WithLabelAbsent(init, key, key(x));
        assert LabelsInOrder(s, key) == before + [key(x)];
        assert (before + [key(x)])[..|before|] == before;
        assert Gathered(before, s, key) == Gathered(before, init + [x], key);
      }
    }
  }

  lemma {:induction false} FlattenGrouped(s: seq<Note>, key: Note -> string, k: nat)
    requires k <= |LabelsInOrder(s, key)|
    ensures Flatten(Grouped(s, key)[..k]) == Gathered(LabelsInOrder(s, key)[..k], s, key)
  {
    var labels := LabelsInOrder(s, key);
    var gs := Grouped(s, key);
    if k > 0 {
      FlattenGrouped(s, key, k - 1);
      assert gs[..k][..k - 1] == gs[..k - 1];
      assert labels[..k][..k - 1] == labels[..k - 1];
    }
  }

  /** No note is lost or duplicated: the groups' notes are, as a multiset,
      the input notes. */
  lemma GroupedIsPermutation(s: seq<Note>, key: Note -> string)
    ensures multiset(Flatten(Grouped(s, key))) == multiset(s)
    ensures |Flatten(Grouped(s, key))| == |s|
  {
    var labels := LabelsInOrder(s, key);
    var gs := Grouped(s, key);
    FlattenGrouped(s, key, |labels|);
    assert gs[..|labels|] == gs;
    assert labels[..|labels|] == labels;
    GatheredIsPermutation(s, key);
    assert |Flatten(gs)| == |multiset(Flatten(gs))| == |multiset(s)| == |s|;
  }

  /** Group titles are distinct, each note sits under the title of its own
      label, and every note's label is the title of some group. */
  lemma GroupedByLabel(s: seq<Note>, key: Note -> string)
    ensures forall i, j :: 0 <= i < j < |Grouped(s, key)| ==> Grouped(s, key)[i].title != Grouped(s, key)[j].title
    ensures forall i, x :: 0 <= i < |Grouped(s, key)| && x in Grouped(s, key)[i].notes ==>
      x in s && key(x) == Grouped(s, key)[i].title
    ensures forall q :: 0 <= q < |s| ==>
      exists i :: 0 <= i < |Grouped(s, key)| && Grouped(s, key)[i].title == key(s[q])
  {
    var labels := LabelsInOrder(s, key);
    var gs := Grouped(s, key);
    LabelsDistinct(s, key);
    LabelsInOrderComplete(s, key);
    forall i, x | 0 <= i < |gs| && x in gs[i].notes ensures x in s && key(x) == gs[i].title {
      WithLabelSound(s, key, labels[i], 0);
    }
    forall q | 0 <= q < |s| ensures exists i :: 0 <= i < |gs| && gs[i].title == key(s[q]) {
      var l := key(s[q]);
      var i :| 0 <= i < |labels| && labels[i] == l;
      assert gs[i].title == l;
    }
  }

  /** In the groups of a newest-first sequence each group is newest first. */
  lemma GroupsNewestFirst(sorted: seq<Note>, key: Note -> string, now: int)
    requires NewestFirst(sorted, now)
    ensures forall i :: 0 <= i < |Grouped(sorted, key)| ==> NewestFirst(Grouped(sorted, key)[i].notes, now)
  {
    var labels := LabelsInOrder(sorted, key);
    forall i | 0 <= i < |labels| ensures NewestFirst(Grouped(sorted, key)[i].notes, now) {
      WithLabelSound(sorted, key, labels[i], now);
    }
  }

  /** Groups appear in the order their labels first occur: a note carrying
      the `j`-th label is preceded by a note carrying any earlier label. */
  lemma {:induction false} LabelsFirstSeen(s: seq<Note>, key: Note -> string, i: nat, j: nat, q: nat)
    requires i < j < |LabelsInOrder(s, key)| && q < |s|
    requires key(s[q]) == LabelsInOrder(s, key)[j]
    ensures exists p :: 0 <= p < q && key(s[p]) == LabelsInOrder(s, key)[i]
  {
    var init := s[..|s| - 1];
    var before := LabelsInOrder(init, key);
    var labels := LabelsInOrder(s, key);
    var last := key(s[|s| - 1]);
    assert labels == if last in before then before else before + [last];
    LabelsInOrderComplete(init, key);
    LabelsDistinct(s, key);
    if key(s[q]) in before {
      // the j-th label already occurs in `init`, at the same position
      var j' :| 0 <= j' < |before| && before[j'] == labels[j];
      assert labels[j'] == before[j'];
      assert j' == j;
      var q' := q;
      if q == |init| {
        q' :| 0 <= q' < |init| && key(init[q']) == before[j];
      } else {
        assert s[q] == init[q];
      }
      assert init[q'] == s[q'];
      LabelsFirstSeen(init, key, i, j, q');
      var p :| 0 <= p < q' && key(init[p]) == before[i];
      assert s[p] == init[p];
    } else {
      // the j-th label is new in the last note, so earlier ones occur in `init`
      assert q == |init|;
      assert j == |before|;
      assert before[i] in before;
      var p :| 0 <= p < |init| && key(init[p]) == before[i];
      assert s[p] == init[p];
    }
  }

  // ---------------------------------------------------------------------
  // The flat section list: a header, then that group's notes, per group

  datatype Item = Header(title: string) | NoteItem(note: Note)

  function NoteItems(notes: seq<Note>): (r: seq<Item>)
    ensures |r| == |notes|
    ensures forall j :: 0 <= j < |notes| ==> r[j] == NoteItem(notes[j])
  {
    seq(|notes|, j requires 0 <= j < |notes| => NoteItem(notes[j]))
  }

  /** `grouped.flatMap((g) => [header(g), ...g.notes.map(note)])`. */
  function Sections(gs: seq<Group>): (r: seq<Item>)
    ensures |r| == |gs| + |Flatten(gs)|
  {
    if gs == [] then []
    else Sections(gs[..|gs| - 1]) + [Header(gs[|gs| - 1].title)] + NoteItems(gs[|gs| - 1].notes)
  }

  lemma {:induction false} SectionsLength(gs: seq<Group>)
    ensures |Sections(gs)| == |gs| + |Flatten(gs)|
  {
    if gs != [] {
      SectionsLength(gs[..|gs| - 1]);
    }
  }

  /** The sections of the first `n` groups begin the sections of all of them. */
  lemma {:induction false} SectionsPrefix(gs: seq<Group>, n: nat)
    requires n <= |gs|
    ensures |Sections(gs[..n])| <= |Sections(gs)|
    ensures Sections(gs)[..|Sections(gs[..n])|] == Sections(gs[..n])
    decreases |gs|
  {
    if n < |gs| {
      var init := gs[..|gs| - 1];
      assert init[..n] == gs[..n];
      SectionsPrefix(init, n);
      var s := Sections(init);
      var all := s + [Header(gs[|gs| - 1].title)] + NoteItems(gs[|gs| - 1].notes);
      assert Sections(gs) == all;
      assert all[..|s|] == s;
      assert all[..|Sections(gs[..n])|] == s[..|Sections(gs[..n])|];
    } else {
      assert gs[..n] == gs;
    }
  }

  /** A header followed by note items, at the end of a prefix of `all`. */
  lemma HeaderThenItems(all: seq<Item>, pre: seq<Item>, title: string, notes: seq<Note>)
    requires |pre| + 1 + |notes| <= |all|
    requires all[..|pre| + 1 + |notes|] == pre + [Header(title)] + NoteItems(notes)
    ensures all[|pre|] == Header(title)
    ensures forall j :: 0 <= j < |notes| ==> all[|pre| + 1 + j] == NoteItem(notes[j])
  {
    var sp := all[..|pre| + 1 + |notes|];
    assert all[|pre|] == sp[|pre|];
    forall j | 0 <= j < |notes|
      ensures all[|pre| + 1 + j] == NoteItem(notes[j])
    {
      assert all[|pre| + 1 + j] == sp[|pre| + 1 + j];
    }
  }

  /** Group `k`'s header sits after the items of the groups before it, and
      its notes follow immediately. */
  lemma SectionsLayout(gs: seq<Group>, k: nat)
    requires k < |gs|
    ensures var off := k + |Flatten(gs[..k])|;
      off + |gs[k].notes| < |Sections(gs)|
      && Sections(gs)[off] == Header(gs[k].title)
      && forall j :: 0 <= j < |gs[k].notes| ==> Sections(gs)[off + 1 + j] == NoteItem(gs[k].notes[j])
  {
    var p := gs[..k + 1];
    assert p[..k] == gs[..k];
    var pre := Sections(gs[..k]);
    assert Sections(p) == pre + [Header(gs[k].title)] + NoteItems(gs[k].notes);
    SectionsLength(gs[..k]);
    SectionsPrefix(gs, k + 1);
    HeaderThenItems(Sections(gs), pre, gs[k].title, gs[k].notes);
  }
}
