/**
 * `groupedEntries`: the filtered entries grouped by the month they were created in, groups newest
 * first, each group's entries newest first.
 *
 * `Dictionary(grouping:)` collects, for every month key, that month's entries in their original
 * order. Its iteration order is unspecified; here the keys come in order of first occurrence, which
 * the following sort makes irrelevant whenever groups start with distinct times (always, since two
 * entries created at the same second fall in the same month).
 */
module JournalGroups {
  import opened Seqs
  import opened Dates
  import opened JournalEntries
  import opened Storage

  /** A section of the journal list: a month and its entries. */
  type Group = (MonthKey, seq<JournalEntry>)

  /** The months in which entries of `s` were created, each once, in order of first occurrence. */
  function MonthKeys(s: seq<JournalEntry>): (ks: seq<MonthKey>)
    ensures forall e :: e in s ==> MonthOf(e.createdAt) in ks
    ensures forall k :: k in ks ==> exists e :: e in s && MonthOf(e.createdAt) == k
    ensures forall i, j :: 0 <= i < j < |ks| ==> ks[i] != ks[j]
  {
    if s == [] then []
    else
      var init := s[..|s| - 1];
      var last := s[|s| - 1];
      assert s == init + [last];
      var ks := MonthKeys(init);
      var k := MonthOf(last.createdAt);
      assert forall e :: e in s <==> e in init || e == last;
      if k in ks then ks else ks + [k]
  }

  /** Whether an entry was created in month `k`. */
  function InMonth(k: MonthKey): JournalEntry -> bool {
    (e: JournalEntry) => MonthOf(e.createdAt) == k
  }

  /** `Dictionary(grouping: s) { $0.createdAt.monthYearFormatted }`, one group per month key. */
  function GroupByMonth(s: seq<JournalEntry>): (gs: seq<Group>)
    ensures |gs| == |MonthKeys(s)|
    ensures forall i :: 0 <= i < |gs| ==> gs[i] == (MonthKeys(s)[i], Filter(s, InMonth(MonthKeys(s)[i])))
  {
    var ks := MonthKeys(s);
    seq(|ks|, i requires 0 <= i < |ks| => (ks[i], Filter(s, InMonth(ks[i]))))
  }

  /** The key of a group. */
  function GroupKey(g: Group): MonthKey {
    g.0
  }

  /** `$0.value.first?.createdAt ?? Date()`: the time of a group's first entry, `now` for an empty group. */
  function FirstTime(g: Group, now: Timestamp): Timestamp {
    if g.1 == [] then now else g.1[0].createdAt
  }

  /** The group order: later first time first. */
  function GroupOrder(now: Timestamp): (Group, Group) -> bool {
    (a: Group, b: Group) => FirstTime(a, now) >= FirstTime(b, now)
  }

  lemma GroupOrderIsTotalPreorder(now: Timestamp)
    ensures TotalPreorder(GroupOrder(now))
  {
  }

  /** The dictionary's groups sorted by their first entries, newest first. */
  function OrderedGroups(filtered: seq<JournalEntry>, now: Timestamp): (gs: seq<Group>)
    ensures multiset(gs) == multiset(GroupByMonth(filtered)) && |gs| == |GroupByMonth(filtered)|
    ensures SortedBy(gs, GroupOrder(now))
  {
    GroupOrderIsTotalPreorder(now);
    SortBy(GroupByMonth(filtered), GroupOrder(now))
  }

  /** `groupedEntries` over the filtered entries at time `now`. */
  function GroupedEntries(filtered: seq<JournalEntry>, now: Timestamp): (gs: seq<Group>)
    ensures |gs| == |OrderedGroups(filtered, now)|
    ensures forall i :: 0 <= i < |gs| ==> gs[i].1 != []
  {
    var ordered := OrderedGroups(filtered, now);
    OrderedGroupsAreDictionaryGroups(filtered, now);
    DictionaryGroupsNonEmpty(filtered);
    seq(|ordered|, i requires 0 <= i < |ordered| => (ordered[i].0, FetchEntriesNewestFirst(ordered[i].1)))
  }

  /** Every group of the dictionary is a month of `s` with exactly that month's entries, and no group is empty. */
  lemma DictionaryGroup(s: seq<JournalEntry>, g: Group)
    requires g in GroupByMonth(s)
    ensures g.0 in MonthKeys(s) && g.1 == Filter(s, InMonth(g.0))
    ensures g.1 != []
  {
    var gs := GroupByMonth(s);
    var i :| 0 <= i < |gs| && gs[i] == g;
    var ks := MonthKeys(s);
    assert g.0 == ks[i] && g.0 in ks;
    var e :| e in s && MonthOf(e.createdAt) == g.0;
    assert InMonth(g.0)(e);
    assert e in g.1;
  }

  /** No group of the dictionary is empty. */
  lemma DictionaryGroupsNonEmpty(s: seq<JournalEntry>)
    ensures forall g :: g in GroupByMonth(s) ==> g.1 != []
  {
    forall g | g in GroupByMonth(s) ensures g.1 != [] {
      DictionaryGroup(s, g);
    }
  }

  /** The dictionary has one group per month. */
  lemma DictionaryKeysUnique(s: seq<JournalEntry>)
    ensures UniqueBy(GroupByMonth(s), GroupKey)
  {
  }

  /** The sorted groups are the dictionary's groups, so they too have distinct months. */
  lemma OrderedGroupsAreDictionaryGroups(filtered: seq<JournalEntry>, now: Timestamp)
    ensures forall i :: 0 <= i < |OrderedGroups(filtered, now)| ==> OrderedGroups(filtered, now)[i] in GroupByMonth(filtered)
    ensures UniqueBy(OrderedGroups(filtered, now), GroupKey)
  {
    var ordered := OrderedGroups(filtered, now);
    forall i | 0 <= i < |ordered| ensures ordered[i] in GroupByMonth(filtered) {
      assert ordered[i] in multiset(GroupByMonth(filtered));
    }
    DictionaryKeysUnique(filtered);
    PermutationUniqueBy(GroupByMonth(filtered), ordered, GroupKey);
  }

  /** Each section holds exactly its month's filtered entries (with multiplicity), newest first, and is non-empty. */
  lemma GroupedEntriesSections(filtered: seq<JournalEntry>, now: Timestamp, i: int)
    requires 0 <= i < |GroupedEntries(filtered, now)|
    ensures var g := GroupedEntries(filtered, now)[i];
      && g.1 != []
      && multiset(g.1) == multiset(Filter(filtered, InMonth(g.0)))
      && (forall e :: e in g.1 ==> e in filtered && MonthOf(e.createdAt) == g.0)
      && SortedBy(g.1, NewerOrSame)
  {
    var ordered := OrderedGroups(filtered, now);
    OrderedGroupsAreDictionaryGroups(filtered, now);
    DictionaryGroup(filtered, ordered[i]);
    var g := GroupedEntries(filtered, now)[i];
    assert g == (ordered[i].0, FetchEntriesNewestFirst(ordered[i].1));
    assert |g.1| == |ordered[i].1|;
    forall e | e in g.1 ensures e in filtered && MonthOf(e.createdAt) == g.0 {
      assert e in multiset(g.1);
      assert e in multiset(ordered[i].1);
      assert e in ordered[i].1;
    }
  }

  /** No two sections share a month. */
  lemma GroupedEntriesDistinctMonths(filtered: seq<JournalEntry>, now: Timestamp)
    ensures var gs := GroupedEntries(filtered, now);
      forall i, j :: 0 <= i < j < |gs| ==> gs[i].0 != gs[j].0
  {
    OrderedGroupsAreDictionaryGroups(filtered, now);
  }

  /** An entry lies in at most one section: both would be sections of its month. */
  lemma SectionOfEntryUnique(filtered: seq<JournalEntry>, now: Timestamp, e: JournalEntry, i: int, j: int)
    requires var gs := GroupedEntries(filtered, now);
      0 <= i < |gs| && 0 <= j < |gs| && e in gs[i].1 && e in gs[j].1
    ensures i == j
  {
    GroupedEntriesSections(filtered, now, i);
    GroupedEntriesSections(filtered, now, j);
    GroupedEntriesDistinctMonths(filtered, now);
  }

  /** Every filtered entry is in exactly one section, the one of its month. */
  lemma GroupedEntriesCover(filtered: seq<JournalEntry>, now: Timestamp, e: JournalEntry)
    requires e in filtered
    ensures var gs := GroupedEntries(filtered, now);
      exists i :: 0 <= i < |gs| && gs[i].0 == MonthOf(e.createdAt) && e in gs[i].1
    ensures var gs := GroupedEntries(filtered, now);
      forall i, j :: 0 <= i < |gs| && 0 <= j < |gs| && e in gs[i].1 && e in gs[j].1 ==> i == j
  {
    SectionOfEntry(filtered, now, e);
    var gs := GroupedEntries(filtered, now);
    forall i, j | 0 <= i < |gs| && 0 <= j < |gs| && e in gs[i].1 && e in gs[j].1 ensures i == j {
      SectionOfEntryUnique(filtered, now, e, i, j);
    }
  }

  /** The section of a filtered entry's month exists and holds it. */
  lemma SectionOfEntry(filtered: seq<JournalEntry>, now: Timestamp, e: JournalEntry)
    requires e in filtered
    ensures var gs := GroupedEntries(filtered, now);
      exists i :: 0 <= i < |gs| && gs[i].0 == MonthOf(e.createdAt) && e in gs[i].1
  {
    var dict := GroupByMonth(filtered);
    var ks := MonthKeys(filtered);
    var k := MonthOf(e.createdAt);
    var j :| 0 <= j < |ks| && ks[j] == k;
    assert dict[j] == (k, Filter(filtered, InMonth(k)));
    assert InMonth(k)(e);
    var ordered := OrderedGroups(filtered, now);
    assert dict[j] in multiset(ordered);
    var i :| 0 <= i < |ordered| && ordered[i] == dict[j];
    var gs := GroupedEntries(filtered, now);
    assert gs[i] == (k, FetchEntriesNewestFirst(dict[j].1));
    assert e in multiset(dict[j].1);
    assert e in multiset(gs[i].1);
    assert gs[i].0 == k && e in gs[i].1;
  }

  /**
   * When the filtered entries are newest first (as `fetchEntries` delivers them), every group's first
   * entry is its newest, and sections come strictly newest first.
   */
  lemma GroupedEntriesNewestFirst(filtered: seq<JournalEntry>, now: Timestamp)
    requires SortedBy(filtered, NewerOrSame)
    ensures var gs := GroupedEntries(filtered, now);
      forall i, j :: 0 <= i < j < |gs| ==> gs[i].1[0].createdAt > gs[j].1[0].createdAt
  {
    var gs := GroupedEntries(filtered, now);
    forall i, j | 0 <= i < j < |gs| ensures gs[i].1[0].createdAt > gs[j].1[0].createdAt {
      SectionsStrictlyOrdered(filtered, now, i, j);
    }
  }

  /** One pair of sections of `GroupedEntriesNewestFirst`. */
  lemma SectionsStrictlyOrdered(filtered: seq<JournalEntry>, now: Timestamp, i: int, j: int)
    requires SortedBy(filtered, NewerOrSame)
    requires 0 <= i < j < |GroupedEntries(filtered, now)|
    ensures GroupedEntries(filtered, now)[i].1 != [] && GroupedEntries(filtered, now)[j].1 != []
    ensures GroupedEntries(filtered, now)[i].1[0].createdAt > GroupedEntries(filtered, now)[j].1[0].createdAt
  {
    var gs := GroupedEntries(filtered, now);
    var ordered := OrderedGroups(filtered, now);
    var a, b := gs[i].1[0], gs[j].1[0];
    assert FirstTime(ordered[i], now) >= FirstTime(ordered[j], now) by {
      assert GroupOrder(now)(ordered[i], ordered[j]);
    }
    assert a.createdAt == FirstTime(ordered[i], now) by {
      SectionHeadIsFirst(filtered, now, i);
    }
    assert b.createdAt == FirstTime(ordered[j], now) by {
      SectionHeadIsFirst(filtered, now, j);
    }
    assert a.createdAt != b.createdAt by {
      GroupedEntriesDistinctMonths(filtered, now);
      GroupedEntriesSections(filtered, now, i);
      GroupedEntriesSections(filtered, now, j);
      assert a in gs[i].1 && b in gs[j].1;
      assert MonthOf(a.createdAt) != MonthOf(b.createdAt);
    }
  }

  /** With newest-first input, a section's first entry has the time its dictionary group was sorted by. */
  lemma SectionHeadIsFirst(filtered: seq<JournalEntry>, now: Timestamp, i: int)
    requires SortedBy(filtered, NewerOrSame)
    requires 0 <= i < |GroupedEntries(filtered, now)|
    ensures GroupedEntries(filtered, now)[i].1 != []
    ensures GroupedEntries(filtered, now)[i].1[0].createdAt == FirstTime(OrderedGroups(filtered, now)[i], now)
  {
    var ordered := OrderedGroups(filtered, now);
    OrderedGroupsAreDictionaryGroups(filtered, now);
    DictionaryGroup(filtered, ordered[i]);
    var members := ordered[i].1;
    FilterSorted(filtered, InMonth(ordered[i].0), NewerOrSame);
    NewerOrSameIsTotalPreorder();
    assert members == Filter(filtered, InMonth(ordered[i].0)) && members != [];
    var sorted := FetchEntriesNewestFirst(members);
    assert GroupedEntries(filtered, now)[i].1 == sorted;
    HeadIsNewest(sorted, members);
    HeadIsNewest(members, members);
    assert sorted[0] in multiset(members);
    assert sorted[0].createdAt <= members[0].createdAt;
    assert members[0].createdAt <= sorted[0].createdAt;
    assert FirstTime(ordered[i], now) == members[0].createdAt;
  }

  /** In a newest-first permutation of a non-empty `s`, the first entry is a newest one of `s`. */
  lemma HeadIsNewest(sorted: seq<JournalEntry>, s: seq<JournalEntry>)
    requires s != [] && multiset(sorted) == multiset(s) && SortedBy(sorted, NewerOrSame)
    ensures sorted != [] && forall e :: e in s ==> e.createdAt <= sorted[0].createdAt
  {
    assert |sorted| == |multiset(sorted)| == |s|;
    forall e | e in s ensures e.createdAt <= sorted[0].createdAt {
      assert e in multiset(sorted);
      var j :| 0 <= j < |sorted| && sorted[j] == e;
      if j > 0 {
        assert NewerOrSame(sorted[0], sorted[j]);
      }
    }
  }
}
