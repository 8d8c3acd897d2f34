/**
 * The journal's queries (the computed properties and the streak walk of `JournalViewModel`), as
 * functions of the fetched entries and the stored prompts.
 */
module JournalQueries {
  import opened Wrappers
  import opened Seqs
  import opened Dates
  import opened Moods
  import opened Categories
  import opened DailyPrompts
  import opened JournalEntries
  import opened Storage

  /** `localizedCaseInsensitiveContains`: does the first text contain the second? */
  type ContainsText = (string, string) -> bool

  /** The three filter settings: search text, selected category, selected mood. */
  datatype Filters = Filters(searchText: string, category: Option<PromptCategory>, mood: Option<Mood>)

  const NoFilters: Filters := Filters("", None, None)

  /** `hasActiveFilters`. */
  predicate HasActiveFilters(f: Filters) {
    f.searchText != "" || f.category.Some? || f.mood.Some?
  }

  lemma HasActiveFiltersIff(f: Filters)
    ensures !HasActiveFilters(f) <==> f == NoFilters
  {
  }

  /** Following `entry.prompt`: the linked prompt, none when there is no link or it leads nowhere. */
  function LinkedPrompt(e: JournalEntry, prompts: seq<DailyPrompt>): (r: Option<DailyPrompt>)
    ensures e.prompt.None? ==> r.None?
    ensures r.Some? ==> r.value in prompts && Some(r.value.id) == e.prompt
  {
    match e.prompt
    case None => None
    case Some(id) => FindPrompt(prompts, id)
  }

  /** The search test: the content contains the text, or the linked prompt's text does. */
  predicate MatchesSearch(e: JournalEntry, prompts: seq<DailyPrompt>, text: string, contains: ContainsText) {
    || contains(e.content, text)
    || (match LinkedPrompt(e, prompts)
        case Some(p) => contains(p.text, text)
        case None => false)
  }

  /** `entry.prompt?.category == category`. */
  predicate MatchesCategory(e: JournalEntry, prompts: seq<DailyPrompt>, c: PromptCategory) {
    LinkedPrompt(e, prompts).Some? && LinkedPrompt(e, prompts).value.Category() == c
  }

  /** `entry.mood == mood`. */
  predicate MatchesMood(e: JournalEntry, m: Mood) {
    e.Mood() == Some(m)
  }

  /** The conjunction of the three filter dimensions, an empty one passing everything. */
  predicate PassesFilters(e: JournalEntry, prompts: seq<DailyPrompt>, f: Filters, contains: ContainsText) {
    && (f.searchText == "" || MatchesSearch(e, prompts, f.searchText, contains))
    && (f.category.None? || MatchesCategory(e, prompts, f.category.value))
    && (f.mood.None? || MatchesMood(e, f.mood.value))
  }

  /** `PassesFilters` as a function value, to filter with. */
  function Passes(prompts: seq<DailyPrompt>, f: Filters, contains: ContainsText): JournalEntry -> bool {
    e => PassesFilters(e, prompts, f, contains)
  }

  /** The search test as a function value. */
  function SearchTest(prompts: seq<DailyPrompt>, text: string, contains: ContainsText): JournalEntry -> bool {
    e => MatchesSearch(e, prompts, text, contains)
  }

  /** The category test as a function value. */
  function CategoryTest(prompts: seq<DailyPrompt>, c: PromptCategory): JournalEntry -> bool {
    e => MatchesCategory(e, prompts, c)
  }

  /** The mood test as a function value. */
  function MoodTest(m: Mood): JournalEntry -> bool {
    e => MatchesMood(e, m)
  }

  /** `filteredEntries`: the text filter, then the category filter, then the mood filter, each applied only when set. */
  function FilteredEntries(entries: seq<JournalEntry>, prompts: seq<DailyPrompt>, f: Filters, contains: ContainsText): seq<JournalEntry> {
    var bySearch := if f.searchText != "" then Filter(entries, SearchTest(prompts, f.searchText, contains)) else entries;
    var byCategory := if f.category.Some? then Filter(bySearch, CategoryTest(prompts, f.category.value)) else bySearch;
    if f.mood.Some? then Filter(byCategory, MoodTest(f.mood.value)) else byCategory
  }

  /** The search stage, which an empty search text leaves out, as a filter by a total test. */
  function SearchStage(prompts: seq<DailyPrompt>, f: Filters, contains: ContainsText): JournalEntry -> bool {
    e => f.searchText == "" || MatchesSearch(e, prompts, f.searchText, contains)
  }

  /** The category stage as a total test. */
  function CategoryStage(prompts: seq<DailyPrompt>, f: Filters): JournalEntry -> bool {
    e => f.category.None? || MatchesCategory(e, prompts, f.category.value)
  }

  /** The mood stage as a total test. */
  function MoodStage(f: Filters): JournalEntry -> bool {
    e => f.mood.None? || MatchesMood(e, f.mood.value)
  }

  /** The search and category stages together. */
  function SearchAndCategory(prompts: seq<DailyPrompt>, f: Filters, contains: ContainsText): JournalEntry -> bool {
    e => SearchStage(prompts, f, contains)(e) && CategoryStage(prompts, f)(e)
  }

  lemma SearchStageFilter(entries: seq<JournalEntry>, prompts: seq<DailyPrompt>, f: Filters, contains: ContainsText)
    ensures Filter(entries, SearchStage(prompts, f, contains))
         == if f.searchText != "" then Filter(entries, SearchTest(prompts, f.searchText, contains)) else entries
  {
    if f.searchText != "" {
      FilterExtensional(entries, SearchStage(prompts, f, contains), SearchTest(prompts, f.searchText, contains));
    } else {
      FilterAll(entries, SearchStage(prompts, f, contains));
    }
  }

  lemma CategoryStageFilter(s: seq<JournalEntry>, prompts: seq<DailyPrompt>, f: Filters)
    ensures Filter(s, CategoryStage(prompts, f))
         == if f.category.Some? then Filter(s, CategoryTest(prompts, f.category.value)) else s
  {
    if f.category.Some? {
      FilterExtensional(s, CategoryStage(prompts, f), CategoryTest(prompts, f.category.value));
    } else {
      FilterAll(s, CategoryStage(prompts, f));
    }
  }

  lemma MoodStageFilter(s: seq<JournalEntry>, f: Filters)
    ensures Filter(s, MoodStage(f)) == if f.mood.Some? then Filter(s, MoodTest(f.mood.value)) else s
  {
    if f.mood.Some? {
      FilterExtensional(s, MoodStage(f), MoodTest(f.mood.value));
    } else {
      FilterAll(s, MoodStage(f));
    }
  }

  /** `filteredEntries` is the three stages applied one after the other. */
  lemma FilteredEntriesIsStaged(entries: seq<JournalEntry>, prompts: seq<DailyPrompt>, f: Filters, contains: ContainsText)
    ensures FilteredEntries(entries, prompts, f, contains)
         == Filter(Filter(Filter(entries, SearchStage(prompts, f, contains)), CategoryStage(prompts, f)), MoodStage(f))
  {
    var bySearch := Filter(entries, SearchStage(prompts, f, contains));
    SearchStageFilter(entries, prompts, f, contains);
    CategoryStageFilter(bySearch, prompts, f);
    MoodStageFilter(Filter(bySearch, CategoryStage(prompts, f)), f);
  }

  /** The three stages one after the other are one filter by their conjunction. */
  lemma StagesCompose(entries: seq<JournalEntry>, prompts: seq<DailyPrompt>, f: Filters, contains: ContainsText)
    ensures Filter(Filter(Filter(entries, SearchStage(prompts, f, contains)), CategoryStage(prompts, f)), MoodStage(f))
         == Filter(entries, Passes(prompts, f, contains))
  {
    var sc := SearchAndCategory(prompts, f, contains);
    FilterTwice(entries, SearchStage(prompts, f, contains), CategoryStage(prompts, f), sc);
    FilterTwice(entries, sc, MoodStage(f), Passes(prompts, f, contains));
  }

  /** The three staged filters are one filter by the conjunction of the three tests. */
  lemma FilteredEntriesIsOneFilter(entries: seq<JournalEntry>, prompts: seq<DailyPrompt>, f: Filters, contains: ContainsText)
    ensures FilteredEntries(entries, prompts, f, contains) == Filter(entries, Passes(prompts, f, contains))
  {
    FilteredEntriesIsStaged(entries, prompts, f, contains);
    StagesCompose(entries, prompts, f, contains);
  }

  /** `filteredEntries` keeps exactly the entries that pass every set filter, in their order. */
  lemma FilteredEntriesSpec(entries: seq<JournalEntry>, prompts: seq<DailyPrompt>, f: Filters, contains: ContainsText)
    ensures var r := FilteredEntries(entries, prompts, f, contains);
      && IsSubsequence(r, entries)
      && (forall e :: e in r <==> e in entries && PassesFilters(e, prompts, f, contains))
      && (f == NoFilters ==> r == entries)
  {
    FilteredEntriesIsOneFilter(entries, prompts, f, contains);
    FilterIsSubsequence(entries, Passes(prompts, f, contains));
  }

  /** A prompt-less entry can match the search only by its content; with a category set it never passes. */
  lemma PromptlessEntries(e: JournalEntry, prompts: seq<DailyPrompt>, f: Filters, contains: ContainsText)
    requires e.prompt.None?
    ensures f.searchText != "" ==> (MatchesSearch(e, prompts, f.searchText, contains) <==> contains(e.content, f.searchText))
    ensures f.category.Some? ==> !PassesFilters(e, prompts, f, contains)
  {
  }

  /** With a mood set, only entries with exactly that mood pass; entries without a mood never do. */
  lemma MoodFilterExact(e: JournalEntry, prompts: seq<DailyPrompt>, f: Filters, contains: ContainsText)
    requires f.mood.Some?
    ensures PassesFilters(e, prompts, f, contains) ==> e.Mood() == f.mood
    ensures e.Mood().None? ==> !PassesFilters(e, prompts, f, contains)
  {
  }

  // ---------------------------------------------------------------------------------------------
  // Streak

  /** The days (day indices) on which at least one entry was created. */
  function EntryDays(entries: seq<JournalEntry>): set<int> {
    set e | e in entries :: Day(e.createdAt)
  }

  /** Creation time of the newest entry. */
  function NewestTime(entries: seq<JournalEntry>): (t: Timestamp)
    requires entries != []
    ensures forall e :: e in entries ==> e.createdAt <= t
    ensures exists e :: e in entries && e.createdAt == t
  {
    if |entries| == 1 then entries[0].createdAt
    else
      var rest := NewestTime(entries[1..]);
      assert forall e :: e in entries[1..] ==> e in entries;
      if entries[0].createdAt >= rest then entries[0].createdAt else rest
  }

  /** Each of the `n` days that end at day `last` is in `days`. */
  ghost predicate RunOfDays(days: set<int>, last: int, n: nat) {
    forall d :: last - n < d <= last ==> d in days
  }

  /** A run grows by one day when the day before it is in `days`. */
  lemma RunExtend(days: set<int>, last: int, n: nat)
    requires RunOfDays(days, last, n) && last - n in days
    ensures RunOfDays(days, last, n + 1)
  {
  }

  /**
   * `k` is the streak of `entries` at time `now`: zero without entries or when the newest entry is
   * neither from today nor from yesterday; otherwise the number of consecutive days, each with an
   * entry, that end at the newest entry's day.
   */
  ghost predicate IsStreak(entries: seq<JournalEntry>, now: Timestamp, k: nat) {
    if entries == [] then k == 0
    else
      var newest := Day(NewestTime(entries));
      if newest != Day(now) && newest != Day(now) - 1 then k == 0
      else
        && RunOfDays(EntryDays(entries), newest, k)
        && newest - k !in EntryDays(entries)
  }

  /** At most one number is the streak. */
  lemma StreakUnique(entries: seq<JournalEntry>, now: Timestamp, k1: nat, k2: nat)
    requires IsStreak(entries, now, k1) && IsStreak(entries, now, k2)
    ensures k1 == k2
  {
  }

  /** The newest entry's day is the latest entry day. */
  lemma NewestDayIsLatest(entries: seq<JournalEntry>)
    requires entries != []
    ensures Day(NewestTime(entries)) in EntryDays(entries)
    ensures forall d :: d in EntryDays(entries) ==> d <= Day(NewestTime(entries))
  {
    var t := NewestTime(entries);
    var e :| e in entries && e.createdAt == t;
    forall d | d in EntryDays(entries) ensures d <= Day(t) {
      var x :| x in entries && Day(x.createdAt) == d;
      DayMonotone(x.createdAt, t);
    }
  }

  /** The streak depends only on the set of days with entries. */
  lemma StreakDependsOnlyOnDays(a: seq<JournalEntry>, b: seq<JournalEntry>, now: Timestamp, k: nat)
    requires EntryDays(a) == EntryDays(b)
    ensures IsStreak(a, now, k) <==> IsStreak(b, now, k)
  {
    if b != [] {
      assert Day(b[0].createdAt) in EntryDays(a);
    }
    if a != [] {
      assert Day(a[0].createdAt) in EntryDays(b);
      NewestDayIsLatest(a);
      NewestDayIsLatest(b);
    }
  }

  /** A second entry on a day that already has one neither adds to nor breaks the streak. */
  lemma SameDayDuplicate(entries: seq<JournalEntry>, e: JournalEntry, now: Timestamp, k: nat)
    requires exists x :: x in entries && IsSameDay(x.createdAt, e.createdAt)
    ensures IsStreak(entries + [e], now, k) <==> IsStreak(entries, now, k)
  {
    assert EntryDays(entries + [e]) == EntryDays(entries) by {
      var x :| x in entries && IsSameDay(x.createdAt, e.createdAt);
      assert forall y :: y in entries + [e] <==> y in entries || y == e;
      assert Day(e.createdAt) == Day(x.createdAt);
    }
    StreakDependsOnlyOnDays(entries + [e], entries, now, k);
  }

  /** An entry created at `t`, for the examples below. */
  function EntryAt(id: EntryId, t: Timestamp): JournalEntry {
    NewEntry(id, t)
  }

  /** Entries today, yesterday and the day before give a streak of 3. */
  lemma StreakOfThreeDays(now: Timestamp)
    ensures IsStreak([EntryAt(0, now), EntryAt(1, AddDays(now, -1)), EntryAt(2, AddDays(now, -2))], now, 3)
  {
    var s := [EntryAt(0, now), EntryAt(1, AddDays(now, -1)), EntryAt(2, AddDays(now, -2))];
    var today := Day(now);
    assert NewestTime(s) == now by {
      assert NewestTime(s[2..]) == AddDays(now, -2);
      assert NewestTime(s[1..]) == AddDays(now, -1);
    }
    assert today - 3 !in EntryDays(s) by {
      assert forall e :: e in s ==> e == s[0] || e == s[1] || e == s[2];
    }
    assert RunOfDays(EntryDays(s), today, 3) by {
      assert s[0] in s && s[1] in s && s[2] in s;
      forall d | today - 3 < d <= today ensures d in EntryDays(s) {
        assert d == Day(s[0].createdAt) || d == Day(s[1].createdAt) || d == Day(s[2].createdAt);
      }
    }
    WalkIsStreak(s, now, today, 3);
  }

  /** Entries on yesterday and the day before, none today, give a streak of 2. */
  lemma StreakEndingYesterday()
    ensures var now := 20000 * SecondsPerDay + 3600;
      IsStreak([EntryAt(1, now - SecondsPerDay), EntryAt(2, now - 2 * SecondsPerDay)], now, 2)
  {
    var now := 20000 * SecondsPerDay + 3600;
    var s := [EntryAt(1, now - SecondsPerDay), EntryAt(2, now - 2 * SecondsPerDay)];
    assert EntryDays(s) == {19999, 19998} by {
      assert forall e :: e in s <==> e == s[0] || e == s[1];
    }
  }

  /** A single entry two days ago leaves a gap at yesterday: streak 0. */
  lemma StreakBrokenByGap()
    ensures var now := 20000 * SecondsPerDay + 3600;
      IsStreak([EntryAt(2, now - 2 * SecondsPerDay)], now, 0)
  {
  }

  /** Two entries today count once. */
  lemma StreakTwoEntriesToday()
    ensures var now := 20000 * SecondsPerDay + 3600;
      IsStreak([EntryAt(0, now), EntryAt(1, now + 60)], now, 1)
  {
    var now := 20000 * SecondsPerDay + 3600;
    var s := [EntryAt(0, now), EntryAt(1, now + 60)];
    assert EntryDays(s) == {20000} by {
      assert forall e :: e in s <==> e == s[0] || e == s[1];
    }
  }

  /** The first entry of the newest-first order is a newest entry. */
  lemma SortedHeadIsNewest(sorted: seq<JournalEntry>, entries: seq<JournalEntry>)
    requires entries != [] && multiset(sorted) == multiset(entries)
    requires SortedBy(sorted, NewerOrSame)
    ensures |sorted| == |entries| && sorted[0].createdAt == NewestTime(entries)
  {
    assert |sorted| == |multiset(sorted)| == |entries|;
    var t := NewestTime(entries);
    var e :| e in entries && e.createdAt == t;
    assert e in multiset(sorted);
    var j :| 0 <= j < |sorted| && sorted[j] == e;
    if j > 0 {
      assert NewerOrSame(sorted[0], sorted[j]);
    }
    assert sorted[0] in multiset(entries);
  }

  /** The day of any entry of `sorted` is an entry day of its permutation `entries`. */
  lemma EntryOn(sorted: seq<JournalEntry>, entries: seq<JournalEntry>, i: int)
    requires multiset(sorted) == multiset(entries) && 0 <= i < |sorted|
    ensures Day(sorted[i].createdAt) in EntryDays(entries)
  {
    assert sorted[i] in multiset(entries);
  }

  /** A day on which none of `sorted`'s entries falls is not an entry day of its permutation `entries`. */
  lemma NoEntryOn(sorted: seq<JournalEntry>, entries: seq<JournalEntry>, d: int)
    requires multiset(sorted) == multiset(entries)
    requires forall j :: 0 <= j < |sorted| ==> Day(sorted[j].createdAt) != d
    ensures d !in EntryDays(entries)
  {
    forall e | e in entries ensures Day(e.createdAt) != d {
      assert e in multiset(sorted);
      var j :| 0 <= j < |sorted| && sorted[j] == e;
    }
  }

  /** In newest-first order, every entry from index `i` on lies before a midnight that `sorted[i]` lies before. */
  lemma TailBeforeMidnight(sorted: seq<JournalEntry>, i: int, midnight: Timestamp)
    requires SortedBy(sorted, NewerOrSame) && 0 <= i < |sorted|
    requires midnight % SecondsPerDay == 0 && sorted[i].createdAt < midnight
    ensures forall j :: i <= j < |sorted| ==> Day(sorted[j].createdAt) < Day(midnight)
  {
    forall j | i <= j < |sorted| ensures Day(sorted[j].createdAt) < Day(midnight) {
      if j > i {
        assert NewerOrSame(sorted[i], sorted[j]);
      }
      BeforeMidnight(sorted[j].createdAt, midnight);
    }
  }

  /** What the walk establishes is the streak. */
  lemma WalkIsStreak(entries: seq<JournalEntry>, now: Timestamp, anchor: int, streak: nat)
    requires entries != [] && anchor == Day(NewestTime(entries))
    requires anchor == Day(now) || anchor == Day(now) - 1
    requires RunOfDays(EntryDays(entries), anchor, streak)
    requires anchor - streak !in EntryDays(entries)
    ensures IsStreak(entries, now, streak)
  {
  }

  /**
   * The cursor walk of `calculateStreak`: going through `sorted` (newest first) from the midnight
   * `start`, count the consecutive days, back from `start`'s (`anchor`), that have an entry.
   */
  method WalkBack(sorted: seq<JournalEntry>, ghost entries: seq<JournalEntry>, start: Timestamp, ghost anchor: int)
    returns (streak: nat)
    requires SortedBy(sorted, NewerOrSame) && multiset(sorted) == multiset(entries)
    requires start % SecondsPerDay == 0 && Day(start) == anchor
    ensures streak <= |sorted|
    ensures RunOfDays(EntryDays(entries), anchor, streak)
    ensures anchor - streak !in EntryDays(entries)
  {
    ghost var days := EntryDays(entries);
    streak := 0;
    var currentDate := start;
    var i := 0;
    while i < |sorted|
      invariant 0 <= streak <= i <= |sorted|
      invariant currentDate % SecondsPerDay == 0 && Day(currentDate) == anchor - streak
      invariant RunOfDays(days, anchor, streak)
      invariant forall j :: 0 <= j < i ==> Day(sorted[j].createdAt) > Day(currentDate)
    {
      var entry := sorted[i];
      if IsSameDay(entry.createdAt, currentDate) {
        EntryOn(sorted, entries, i);
        RunExtend(days, anchor, streak);
        streak := streak + 1;
        currentDate := AddDays(currentDate, -1);
      } else if entry.createdAt < currentDate {
        TailBeforeMidnight(sorted, i, currentDate);
        break;
      } else {
        DayMonotone(currentDate, entry.createdAt);
      }
      i := i + 1;
    }
    NoEntryOn(sorted, entries, Day(currentDate));
  }

  /** `calculateStreak`: walk the entries newest first with a day cursor starting today (or yesterday). */
  method CalculateStreak(entries: seq<JournalEntry>, now: Timestamp) returns (streak: nat)
    ensures IsStreak(entries, now, streak)
    ensures streak <= |entries|
  {
    if entries == [] {
      return 0;
    }
    var sortedEntries := FetchEntriesNewestFirst(entries);
    SortedHeadIsNewest(sortedEntries, entries);
    ghost var newest := Day(NewestTime(entries));
    var currentDate := StartOfDay(now);
    assert Day(currentDate) == Day(now);
    if !IsSameDay(sortedEntries[0].createdAt, currentDate) {
      var yesterday := AddDays(currentDate, -1);
      assert yesterday % SecondsPerDay == 0 && Day(yesterday) == Day(now) - 1;
      if !IsSameDay(sortedEntries[0].createdAt, yesterday) {
        assert newest != Day(now) && newest != Day(now) - 1;
        return 0;
      }
      currentDate := yesterday;
    }
    assert currentDate % SecondsPerDay == 0 && Day(currentDate) == newest;
    streak := WalkBack(sortedEntries, entries, currentDate, newest);
    WalkIsStreak(entries, now, newest, streak);
  }
}
