/**
  The part of `render` that derives what is shown from the notes and the
  filters: the four filters, the three sort orders, the completed and visible
  counts, and the tag-frequency table with its keys in order. The DOM writes
  around it are not modelled.
 */
module View {
  import opened Seqs
  import opened Text
  import opened Notes

  // ---------------------------------------------------------------------------
  // Filters

  /** The text the search box is matched against. */
  function SearchText(n: Note): string
  {
    n.title + " " + n.body + " " + Join(n.tags, " ")
  }

  /** Case-insensitive substring match of the query against the note's text. */
  predicate MatchesSearch(n: Note, query: string)
  {
    Contains(Lower(SearchText(n)), Lower(query))
  }

  /** A priority filter is set and is not "all". */
  predicate PriorityActive(f: Filters)
  {
    f.priority != [] && f.priority != "all"
  }

  /** A tag filter is set (and, as JavaScript tests it, non-empty). */
  predicate TagActive(f: Filters)
  {
    f.tag.Some? && f.tag.value != []
  }

  predicate PassesSearch(f: Filters, n: Note)
  {
    f.search != [] ==> MatchesSearch(n, f.search)
  }

  predicate PassesCompleted(f: Filters, n: Note)
  {
    f.showCompleted || !n.completed
  }

  predicate PassesPriority(f: Filters, n: Note)
  {
    PriorityActive(f) ==> n.priority == f.priority
  }

  predicate PassesTag(f: Filters, n: Note)
  {
    TagActive(f) ==> f.tag.value in n.tags
  }

  /** A note is shown exactly when it passes every active filter. */
  predicate Visible(f: Filters, n: Note)
  {
    PassesSearch(f, n) && PassesCompleted(f, n) && PassesPriority(f, n) && PassesTag(f, n)
  }

  function VisibleUnder(f: Filters): Note -> bool
  {
    (n: Note) => Visible(f, n)
  }

  function SearchFor(query: string): Note -> bool
  {
    (n: Note) => MatchesSearch(n, query)
  }

  function Open(): Note -> bool
  {
    (n: Note) => !n.completed
  }

  function Done(): Note -> bool
  {
    (n: Note) => n.completed
  }

  function PriorityIs(priority: string): Note -> bool
  {
    (n: Note) => n.priority == priority
  }

  function TaggedWith(tag: string): Note -> bool
  {
    (n: Note) => tag in n.tags
  }

  /** The filter stages of `render`, applied in its order. */
  function Filtered(notes: seq<Note>, f: Filters): seq<Note>
  {
    var bySearch := if f.search != [] then Filter(notes, SearchFor(f.search)) else notes;
    var byCompleted := if !f.showCompleted then Filter(bySearch, Open()) else bySearch;
    var byPriority := if PriorityActive(f) then Filter(byCompleted, PriorityIs(f.priority)) else byCompleted;
    if TagActive(f) then Filter(byPriority, TaggedWith(f.tag.value)) else byPriority
  }

  function UpToSearch(f: Filters): Note -> bool
  {
    (n: Note) => PassesSearch(f, n)
  }

  function UpToCompleted(f: Filters): Note -> bool
  {
    (n: Note) => PassesSearch(f, n) && PassesCompleted(f, n)
  }

  function UpToPriority(f: Filters): Note -> bool
  {
    (n: Note) => PassesSearch(f, n) && PassesCompleted(f, n) && PassesPriority(f, n)
  }

  /**
    A stage applied when `active`: filtering the survivors of `before` by `p`
    is filtering the input once by `after`, the conjunction.
   */
  lemma FilterStage<T>(s: seq<T>, before: T -> bool, active: bool, p: T -> bool, after: T -> bool)
    requires forall k :: 0 <= k < |s| ==> after(s[k]) == (before(s[k]) && (active ==> p(s[k])))
    ensures (if active then Filter(Filter(s, before), p) else Filter(s, before)) == Filter(s, after)
  {
    if active {
      FilterTwice(s, before, p);
      FilterAgree(s, (x: T) => before(x) && p(x), after);
    } else {
      FilterAgree(s, before, after);
    }
  }

  /** The staged filters keep exactly the visible notes, in their stored order. */
  lemma FilteredIsVisible(notes: seq<Note>, f: Filters)
    ensures Filtered(notes, f) == Filter(notes, VisibleUnder(f))
  {
    var bySearch := if f.search != [] then Filter(notes, SearchFor(f.search)) else notes;
    if f.search != [] {
      FilterAgree(notes, SearchFor(f.search), UpToSearch(f));
    } else {
      FilterKeepsAll(notes, UpToSearch(f));
    }
    assert bySearch == Filter(notes, UpToSearch(f));
    FilterStage(notes, UpToSearch(f), !f.showCompleted, Open(), UpToCompleted(f));
    FilterStage(notes, UpToCompleted(f), PriorityActive(f), PriorityIs(f.priority), UpToPriority(f));
    FilterStage(notes, UpToPriority(f), TagActive(f), TaggedWith(if TagActive(f) then f.tag.value else []), VisibleUnder(f));
  }

  /**
    The filtered list is a subsequence of the notes holding every visible note
    and nothing else, each as often as it is stored.
   */
  lemma FilteredExactly(notes: seq<Note>, f: Filters)
    ensures IsSubsequence(Filtered(notes, f), notes)
    ensures forall k :: 0 <= k < |Filtered(notes, f)| ==> Visible(f, Filtered(notes, f)[k])
    ensures forall n :: multiset(Filtered(notes, f))[n] == if Visible(f, n) then multiset(notes)[n] else 0
  {
    FilteredIsVisible(notes, f);
    FilterIsSubsequence(notes, VisibleUnder(f));
    FilterMultiset(notes, VisibleUnder(f));
  }

  /** The search ignores ASCII case: a query and its lower-case form select alike. */
  lemma SearchIgnoresCase(n: Note, query: string)
    ensures MatchesSearch(n, query) == MatchesSearch(n, Lower(query))
    ensures MatchesSearch(n, query) <==> exists i: nat :: OccursAt(Lower(SearchText(n)), Lower(query), i)
  {
    LowerIdempotent(query);
    ContainsOccurs(Lower(SearchText(n)), Lower(query));
  }

  // ---------------------------------------------------------------------------
  // Sorting

  datatype SortKey = UpdatedDesc | DueAsc | PriorityDesc

  /** The sort selector's values; any other value leaves the order alone. */
  function ParseSort(sort: string): Option<SortKey>
  {
    if sort == "updated_desc" then Some(UpdatedDesc)
    else if sort == "due_asc" then Some(DueAsc)
    else if sort == "priority_desc" then Some(PriorityDesc)
    else None
  }

  /** `{ high: 3, medium: 2, low: 1 }[p] || 0` */
  function Rank(priority: string): nat
  {
    if priority == "high" then 3
    else if priority == "medium" then 2
    else if priority == "low" then 1
    else 0
  }

  /** `n.due || ''`: a missing date compares as the empty string. */
  function DueKey(n: Note): string
  {
    if n.due.Some? then n.due.value else []
  }

  /** `a` may precede `b` under the comparator for `key`. */
  predicate InOrder(key: SortKey, a: Note, b: Note)
  {
    match key
    case UpdatedDesc => a.updatedAt >= b.updatedAt
    case DueAsc => LexLe(DueKey(a), DueKey(b))
    case PriorityDesc => Rank(a.priority) >= Rank(b.priority)
  }

  function Order(key: SortKey): (Note, Note) -> bool
  {
    (a: Note, b: Note) => InOrder(key, a, b)
  }

  lemma OrderTotal(key: SortKey)
    ensures Total(Order(key))
  {
    forall a: Note, b: Note ensures Order(key)(a, b) || Order(key)(b, a) {
      if key == DueAsc {
        LexLeTotal(DueKey(a), DueKey(b));
      }
    }
  }

  lemma OrderTransitive(key: SortKey)
    ensures Transitive(Order(key))
  {
    forall a: Note, b: Note, c: Note | Order(key)(a, b) && Order(key)(b, c) ensures Order(key)(a, c) {
      if key == DueAsc {
        LexLeTransitive(DueKey(a), DueKey(b), DueKey(c));
      }
    }
  }

  /** A sorted list is ordered between any two positions, not just neighbours. */
  lemma SortedByKey(items: seq<Note>, key: SortKey)
    requires AdjacentSorted(items, Order(key))
    ensures forall i, j :: 0 <= i < j < |items| ==> InOrder(key, items[i], items[j])
  {
    OrderTransitive(key);
    SortedPairwise(items, Order(key));
  }

  /** Under `due_asc`, every note before an undated note is undated too. */
  lemma UndatedFirst(items: seq<Note>, j: nat)
    requires AdjacentSorted(items, Order(DueAsc))
    requires j < |items| && items[j].due.None?
    ensures forall i :: 0 <= i < j ==> DueKey(items[i]) == []
  {
    SortedByKey(items, DueAsc);
  }

  /**
    Two notes, A older and high, B newer and low: `updated_desc` must show
    [B, A] and `priority_desc` must show [A, B].
   */
  lemma TwoNotesOrder(a: Note, b: Note, items: seq<Note>, key: SortKey)
    requires a.priority == "high" && b.priority == "low" && a.updatedAt < b.updatedAt
    requires multiset(items) == multiset([a, b])
    requires key != DueAsc && AdjacentSorted(items, Order(key))
    ensures items == if key == UpdatedDesc then [b, a] else [a, b]
  {
    assert |items| == 2 by {
      assert |multiset(items)| == |multiset([a, b])|;
    }
    assert items[0] in multiset(items) && items[1] in multiset(items);
    assert items[0] == a || items[0] == b;
    assert items[1] == a || items[1] == b;
    assert items == [items[0], items[1]];
  }

  // ---------------------------------------------------------------------------
  // Counts

  /** Completed and open notes partition the store. */
  lemma CompletedPlusOpen(notes: seq<Note>)
    ensures |Filter(notes, Done())| + |Filter(notes, Open())| == |notes|
  {
    FilterPartition(notes, Done(), Open());
  }

  /**
    Hiding completed notes removes them from the list but not from the
    completed count.
   */
  lemma HiddenButCounted(notes: seq<Note>, f: Filters, n: Note)
    requires n in notes && n.completed && !f.showCompleted
    ensures n !in Filtered(notes, f)
    ensures n in Filter(notes, Done()) && |Filter(notes, Done())| >= 1
  {
    FilteredExactly(notes, f);
    FilterMultiset(notes, Done());
    assert multiset(Filtered(notes, f))[n] == 0;
    assert multiset(Filter(notes, Done()))[n] > 0;
  }

  /** How often `tag` occurs across the tag lists of `notes`. */
  function Occurrences(notes: seq<Note>, tag: string): nat
  {
    if notes == [] then 0
    else Occurrences(notes[..|notes| - 1], tag) + multiset(notes[|notes| - 1].tags)[tag]
  }

  /** A tag is counted exactly when some note carries it. */
  lemma {:induction false} OccurrencesPositive(notes: seq<Note>, tag: string)
    ensures Occurrences(notes, tag) > 0 <==> exists k :: 0 <= k < |notes| && tag in notes[k].tags
  {
    if notes != [] {
      var front := notes[..|notes| - 1];
      OccurrencesPositive(front, tag);
      assert forall k :: 0 <= k < |front| ==> front[k] == notes[k];
    }
  }

  /** The count a table holds for `tag`, 0 when absent (`tagCounts[t] || 0`). */
  function CountOf(counts: map<string, nat>, tag: string): nat
  {
    if tag in counts then counts[tag] else 0
  }

  /** The inner `forEach`: add one for every occurrence of a tag in `tags`. */
  method AddTags(counts: map<string, nat>, tags: seq<string>) returns (r: map<string, nat>)
    requires forall t :: t in counts ==> counts[t] > 0
    ensures forall t :: t in r ==> r[t] > 0
    ensures forall t :: CountOf(r, t) == CountOf(counts, t) + multiset(tags)[t]
  {
    r := counts;
    var j := 0;
    while j < |tags|
      invariant 0 <= j <= |tags|
      invariant forall t :: t in r ==> r[t] > 0
      invariant forall t :: CountOf(r, t) == CountOf(counts, t) + multiset(tags[..j])[t]
    {
      var t := tags[j];
      r := r[t := CountOf(r, t) + 1];
      assert tags[..j + 1] == tags[..j] + [t];
      j := j + 1;
    }
    assert tags[..j] == tags;
  }

  /**
    `tagCounts`: for every tag the number of its occurrences over all notes
    (not just the shown ones); tags nobody uses are absent.
   */
  method TagCounts(notes: seq<Note>) returns (counts: map<string, nat>)
    ensures forall t :: t in counts <==> Occurrences(notes, t) > 0
    ensures forall t :: t in counts ==> counts[t] == Occurrences(notes, t)
  {
    counts := map[];
    var i := 0;
    while i < |notes|
      invariant 0 <= i <= |notes|
      invariant forall t :: t in counts ==> counts[t] > 0
      invariant forall t :: CountOf(counts, t) == Occurrences(notes[..i], t)
    {
      counts := AddTags(counts, notes[i].tags);
      assert notes[..i + 1][..i] == notes[..i];
      i := i + 1;
    }
    assert notes[..i] == notes;
    assert forall t :: CountOf(counts, t) == Occurrences(notes, t);
  }

  /** `Object.keys(tagCounts).sort()`: every key once, in strictly ascending order. */
  method SortedTagKeys(counts: map<string, nat>) returns (keys: seq<string>)
    ensures forall t :: t in keys <==> t in counts
    ensures |keys| == |counts|
    ensures AdjacentSorted(keys, LexLe)
    ensures forall k :: 0 < k < |keys| ==> keys[k - 1] != keys[k] && !LexLe(keys[k], keys[k - 1])
  {
    var rest := counts.Keys;
    var found: seq<string> := [];
    while rest != {}
      invariant rest <= counts.Keys
      invariant forall t :: t in found <==> t in counts && t !in rest
      invariant |found| + |rest| == |counts|
      decreases |rest|
    {
      var t :| t in rest;
      found := found + [t];
      rest := rest - {t};
    }
    var a := new string[|found|](k requires 0 <= k < |found| => found[k]);
    assert a[..] == found;
    forall x: string, y: string ensures LexLe(x, y) || LexLe(y, x) {
      LexLeTotal(x, y);
    }
    SortInPlace(a, LexLe);
    keys := a[..];
    assert forall t :: t in keys <==> t in multiset(keys);
    StrictlyAscending(keys, counts.Keys);
  }

  /** Sorted keys that list a set once each are strictly ascending. */
  lemma StrictlyAscending(keys: seq<string>, members: set<string>)
    requires forall t :: t in keys <==> t in members
    requires |keys| == |members|
    requires AdjacentSorted(keys, LexLe)
    ensures forall k :: 0 < k < |keys| ==> keys[k - 1] != keys[k] && !LexLe(keys[k], keys[k - 1])
  {
    NoRepeats(keys, members);
    forall k | 0 < k < |keys| ensures !LexLe(keys[k], keys[k - 1]) {
      if LexLe(keys[k], keys[k - 1]) {
        LexLeAntisymmetric(keys[k - 1], keys[k]);
      }
    }
  }

  // ---------------------------------------------------------------------------
  // The projection

  /** What `render` shows: the items, the two counts and the tag list. */
  datatype ViewState = ViewState(
    items: seq<Note>,
    completedCount: nat,
    visibleCount: nat,
    tagCounts: map<string, nat>,
    tagKeys: seq<string>)

  /**
    The data part of `render`: the filtered notes sorted in place by the
    selected order, the completed count over all notes, the number of shown
    notes, and the tag table with sorted keys.
   */
  method Project(notes: seq<Note>, f: Filters) returns (v: ViewState)
    ensures multiset(v.items) == multiset(Filtered(notes, f))
    ensures ParseSort(f.sort).Some? ==> AdjacentSorted(v.items, Order(ParseSort(f.sort).value))
    ensures ParseSort(f.sort).None? ==> v.items == Filtered(notes, f)
    ensures v.completedCount == |Filter(notes, Done())|
    ensures v.visibleCount == |v.items| == |Filtered(notes, f)|
    ensures forall t :: t in v.tagCounts <==> Occurrences(notes, t) > 0
    ensures forall t :: t in v.tagCounts ==> v.tagCounts[t] == Occurrences(notes, t)
    ensures forall t :: t in v.tagKeys <==> t in v.tagCounts
    ensures |v.tagKeys| == |v.tagCounts| && AdjacentSorted(v.tagKeys, LexLe)
    ensures forall k :: 0 < k < |v.tagKeys| ==> v.tagKeys[k - 1] != v.tagKeys[k]
  {
    var items := Filtered(notes, f);
    var key := ParseSort(f.sort);
    if key.Some? {
      var a := new Note[|items|](k requires 0 <= k < |items| => items[k]);
      assert a[..] == items;
      OrderTotal(key.value);
      SortInPlace(a, Order(key.value));
      items := a[..];
    }
    var completed := |Filter(notes, Done())|;
    var counts := TagCounts(notes);
    var keys := SortedTagKeys(counts);
    v := ViewState(items, completed, |items|, counts, keys);
  }
}
