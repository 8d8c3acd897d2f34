/** `JournalViewModel`: the journal list's state over the store, with its filters and statistics. */
module JournalViewModels {
  import opened Wrappers
  import opened Seqs
  import opened Dates
  import opened Moods
  import opened Categories
  import opened DailyPrompts
  import opened JournalEntries
  import opened Storage
  import opened JournalQueries
  import opened JournalGroups

  /** The ids of the entries at the given offsets of a list section. */
  function IdsAt(offsets: set<nat>, section: seq<JournalEntry>): (ids: set<EntryId>)
    requires forall i :: i in offsets ==> i < |section|
    ensures ids == set i | i in offsets :: section[i].id
  {
    IdsBelowSpec(offsets, section, |section|);
    IdsBelow(offsets, section, |section|)
  }

  /** The ids of the entries at the offsets below `n`, collected in ascending order as the loop does. */
  function IdsBelow(offsets: set<nat>, section: seq<JournalEntry>, n: nat): set<EntryId>
    requires n <= |section|
  {
    if n == 0 then {}
    else IdsBelow(offsets, section, n - 1) + (if n - 1 in offsets then {section[n - 1].id} else {})
  }

  lemma IdsBelowStep(offsets: set<nat>, section: seq<JournalEntry>, n: nat)
    requires n < |section|
    ensures n in offsets ==> IdsBelow(offsets, section, n + 1) == IdsBelow(offsets, section, n) + {section[n].id}
    ensures n !in offsets ==> IdsBelow(offsets, section, n + 1) == IdsBelow(offsets, section, n)
  {
  }

  lemma {:induction false} IdsBelowSpec(offsets: set<nat>, section: seq<JournalEntry>, n: nat)
    requires n <= |section|
    ensures IdsBelow(offsets, section, n) == set i | i in offsets && i < n :: section[i].id
  {
    if n > 0 {
      IdsBelowSpec(offsets, section, n - 1);
    }
  }

  /** One step of the deletion loop: removing one more id from what is left. */
  lemma DeleteStep(stored: seq<JournalEntry>, ids: set<EntryId>, id: EntryId, current: seq<JournalEntry>)
    requires current == RemoveEntries(stored, ids)
    ensures RemoveEntries(current, {id}) == RemoveEntries(stored, ids + {id})
  {
    RemoveEntriesTwice(stored, ids, {id});
  }

  /** With newest-first input (what `fetchEntries` delivers), the filtered entries are newest first too, and so are the sections. */
  lemma FetchedSectionsNewestFirst(stored: seq<JournalEntry>, prompts: seq<DailyPrompt>, f: Filters, contains: ContainsText, now: Timestamp)
    ensures SortedBy(FilteredEntries(FetchEntriesNewestFirst(stored), prompts, f, contains), NewerOrSame)
    ensures var gs := GroupedEntries(FilteredEntries(FetchEntriesNewestFirst(stored), prompts, f, contains), now);
      forall i, j :: 0 <= i < j < |gs| ==> gs[i].1[0].createdAt > gs[j].1[0].createdAt
  {
    var fetched := FetchEntriesNewestFirst(stored);
    FilteredEntriesIsOneFilter(fetched, prompts, f, contains);
    FilterSorted(fetched, Passes(prompts, f, contains), NewerOrSame);
    GroupedEntriesNewestFirst(FilteredEntries(fetched, prompts, f, contains), now);
  }

  class JournalViewModel {
    /** The entries as last fetched: copies of the stored records, refreshed by `FetchEntries`. */
    var entries: seq<JournalEntry>
    var searchText: string
    var selectedCategory: Option<PromptCategory>
    var selectedMood: Option<Mood>
    /** `modelContext`: none until `configure`. */
    var store: Store?

    ghost predicate Valid()
      reads this, store
    {
      store != null ==> store.Valid()
    }

    constructor ()
      ensures Valid()
      ensures entries == [] && searchText == "" && selectedCategory == None && selectedMood == None && store == null
    {
      entries, searchText, selectedCategory, selectedMood, store := [], "", None, None, null;
    }

    /** The prompts entries can link to: the store's, or none before `configure`. */
    function Prompts(): seq<DailyPrompt>
      reads this, store
    {
      if store == null then [] else store.prompts
    }

    /** The current filter settings. */
    function CurrentFilters(): Filters
      reads this
    {
      Filters(searchText, selectedCategory, selectedMood)
    }

    /** `filteredEntries`. */
    function Filtered(contains: ContainsText): (r: seq<JournalEntry>)
      reads this, store
      ensures IsSubsequence(r, entries)
      ensures forall e :: e in r <==> e in entries && PassesFilters(e, Prompts(), CurrentFilters(), contains)
    {
      FilteredEntriesSpec(entries, Prompts(), CurrentFilters(), contains);
      FilteredEntries(entries, Prompts(), CurrentFilters(), contains)
    }

    /** `groupedEntries`; the result does not depend on `now` once every section is non-empty. */
    function Grouped(contains: ContainsText, now: Timestamp): (gs: seq<Group>)
      reads this, store
      ensures forall i :: 0 <= i < |gs| ==> gs[i].1 != []
    {
      GroupedEntries(Filtered(contains), now)
    }

    /** `totalEntries`. */
    function TotalEntries(): nat
      reads this
    {
      |entries|
    }

    /** `hasActiveFilters`. */
    predicate HasFilters()
      reads this
    {
      HasActiveFilters(CurrentFilters())
    }

    /** `currentStreak`, at the current time `now`. */
    method CurrentStreak(now: Timestamp) returns (streak: nat)
      ensures IsStreak(entries, now, streak)
      ensures streak <= |entries|
    {
      streak := CalculateStreak(entries, now);
    }

    /** `configure(modelContext:)`: attach the store and fetch. */
    method Configure(s: Store)
      requires s.Valid()
      modifies this
      ensures Valid()
      ensures store == s && entries == FetchEntriesNewestFirst(s.entries)
      ensures CurrentFilters() == old(CurrentFilters())
    {
      store := s;
      FetchEntries();
    }

    /** `fetchEntries`: all stored entries, newest first; nothing without a store. */
    method FetchEntries()
      modifies this
      ensures store == old(store) && CurrentFilters() == old(CurrentFilters())
      ensures store == null ==> entries == old(entries)
      ensures store != null ==> entries == FetchEntriesNewestFirst(store.entries)
    {
      if store != null {
        entries := FetchEntriesNewestFirst(store.entries);
      }
    }

    /** `deleteEntry`: delete one entry, then refetch. */
    method DeleteEntry(e: JournalEntry)
      requires Valid()
      modifies this, store
      ensures Valid() && store == old(store) && CurrentFilters() == old(CurrentFilters())
      ensures store != null ==> store.entries == RemoveEntries(old(store.entries), {e.id})
      ensures store != null ==> store.prompts == old(store.prompts)
      ensures store != null ==> entries == FetchEntriesNewestFirst(store.entries) && TotalEntries() == |store.entries|
      ensures store == null ==> entries == old(entries)
    {
      if store != null {
        store.DeleteEntry(e.id);
      }
      FetchEntries();
    }

    /** `deleteEntries(at:in:)`: delete the entries at the given offsets of a section, then refetch. */
    method DeleteEntries(offsets: set<nat>, section: seq<JournalEntry>)
      requires Valid()
      requires forall i :: i in offsets ==> i < |section|
      modifies this, store
      ensures Valid() && store == old(store) && CurrentFilters() == old(CurrentFilters())
      ensures store != null ==> store.entries == RemoveEntries(old(store.entries), IdsAt(offsets, section))
      ensures store != null ==> store.prompts == old(store.prompts)
      ensures store != null ==> entries == FetchEntriesNewestFirst(store.entries) && TotalEntries() == |store.entries|
      ensures store == null ==> entries == old(entries)
    {
      var context := store;
      if context != null {
        ghost var stored := context.entries;
        ghost var deleted: set<EntryId> := {};
        RemoveNoEntries(stored);
        var index := 0;
        while index < |section|
          modifies context
          invariant 0 <= index <= |section|
          invariant context.Valid() && context.prompts == old(context.prompts)
          invariant deleted == IdsBelow(offsets, section, index)
          invariant context.entries == RemoveEntries(stored, deleted)
        {
          IdsBelowStep(offsets, section, index);
          if index in offsets {
            var entry := section[index];
            ghost var before := context.entries;
            context.DeleteEntry(entry.id);
            DeleteStep(stored, deleted, entry.id, before);
            deleted := deleted + {entry.id};
          }
          index := index + 1;
        }
      }
      FetchEntries();
    }

    /** `clearFilters`. */
    method ClearFilters()
      modifies this
      ensures CurrentFilters() == NoFilters && !HasFilters()
      ensures entries == old(entries) && store == old(store)
    {
      searchText, selectedCategory, selectedMood := "", None, None;
    }
  }

  /** After `clearFilters`, the filtered list is the whole list. */
  lemma ClearedFiltersShowAll(vm: JournalViewModel, contains: ContainsText)
    requires vm.CurrentFilters() == NoFilters
    ensures vm.Filtered(contains) == vm.entries
  {
    FilteredEntriesSpec(vm.entries, vm.Prompts(), vm.CurrentFilters(), contains);
  }
}
