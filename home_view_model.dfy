/**
 * The home screen (`HomeViewModel`): the greeting, today's prompt and today's entry, creating
 * the entry on first use, saving its text and mood, and swapping the prompt.
 *
 * The view model refers to today's prompt and today's entry by id. In the app it is configured
 * with the same model context as the prompt service, so both work on one store.
 */
module HomeViewModels {
  import opened Wrappers
  import opened Seqs
  import opened Dates
  import Moods
  import opened DailyPrompts
  import opened JournalEntries
  import opened Storage
  import opened PromptServices
  import JournalQueries

  // ---------------------------------------------------------------------------------------------
  // Greeting

  /** `greeting`: by the hour of `now`, morning from 5 to 11, afternoon from 12 to 17, evening otherwise. */
  function Greeting(now: Timestamp): string {
    var hour := Hour(now);
    if 5 <= hour < 12 then "Bonjour"
    else if 12 <= hour < 18 then "Bon après-midi"
    else "Bonsoir"
  }

  /** Each of the three greetings is shown in exactly its hours, and no other text is. */
  lemma GreetingByHour(now: Timestamp)
    ensures Greeting(now) == "Bonjour" <==> 5 <= Hour(now) < 12
    ensures Greeting(now) == "Bon après-midi" <==> 12 <= Hour(now) < 18
    ensures Greeting(now) == "Bonsoir" <==> Hour(now) < 5 || 18 <= Hour(now)
  {
    assert "Bonjour"[3] != "Bonsoir"[3];
    assert "Bonjour"[4] != "Bon après-midi"[4];
    assert "Bonsoir"[4] != "Bon après-midi"[4];
  }

  // ---------------------------------------------------------------------------------------------
  // Today's entry

  /** The fetch predicate `startOfDay <= createdAt <= endOfDay`. */
  function OnDayOf(now: Timestamp): JournalEntry -> bool {
    (e: JournalEntry) => StartOfDay(now) <= e.createdAt && e.createdAt <= EndOfDay(now)
  }

  /** `fetchTodaysEntry` on the stored entries: the newest one created during `now`'s day. */
  function TodaysEntry(entries: seq<JournalEntry>, now: Timestamp): (r: Option<JournalEntry>)
    ensures r.Some? ==> r.value in entries
  {
    var fetched := FetchEntriesNewestFirst(Filter(entries, OnDayOf(now)));
    if fetched == [] then None
    else
      assert fetched[0] in multiset(fetched);
      Some(fetched[0])
  }

  /** There is an entry for today exactly when some entry was created today, and it is the newest of those. */
  lemma TodaysEntrySpec(entries: seq<JournalEntry>, now: Timestamp)
    ensures TodaysEntry(entries, now).None? <==> forall e :: e in entries ==> !IsToday(e.createdAt, now)
    ensures TodaysEntry(entries, now).Some? ==> IsToday(TodaysEntry(entries, now).value.createdAt, now)
    ensures TodaysEntry(entries, now).Some? ==>
              forall e :: e in entries && IsToday(e.createdAt, now) ==> e.createdAt <= TodaysEntry(entries, now).value.createdAt
  {
    var today := Filter(entries, OnDayOf(now));
    var fetched := FetchEntriesNewestFirst(today);
    forall e | e in entries ensures OnDayOf(now)(e) <==> IsToday(e.createdAt, now) {
      SameDayIffWithin(now, e.createdAt);
    }
    if today != [] {
      assert today[0] in today;
      JournalQueries.SortedHeadIsNewest(fetched, today);
      assert fetched[0] in multiset(today);
    }
  }

  // ---------------------------------------------------------------------------------------------
  // Saving today's entry

  /** What `saveEntry` writes into an entry: the text, the mood and `updatedAt`; nothing else. */
  function Edited(e: JournalEntry, content: string, mood: Option<Moods.Mood>, now: Timestamp): (r: JournalEntry)
    ensures r.content == content && r.Mood() == mood && r.updatedAt == now
    ensures r.id == e.id && r.createdAt == e.createdAt && r.prompt == e.prompt
  {
    e.(content := content, updatedAt := now).WithMood(mood)
  }

  /** The stored entries after saving into the entry with id `id`; nothing changes when it is gone. */
  function SaveInto(s: seq<JournalEntry>, id: EntryId, content: string, mood: Option<Moods.Mood>, now: Timestamp): seq<JournalEntry> {
    match FindEntry(s, id)
    case None => s
    case Some(e) => ReplaceEntry(s, Edited(e, content, mood, now))
  }

  /** Saving edits exactly the entry with that id, keeps every id and its unique-ids invariant. */
  lemma SaveIntoSpec(s: seq<JournalEntry>, id: EntryId, content: string, mood: Option<Moods.Mood>, now: Timestamp)
    requires UniqueEntryIds(s)
    ensures |SaveInto(s, id, content, mood, now)| == |s|
    ensures forall i :: 0 <= i < |s| && s[i].id != id ==> SaveInto(s, id, content, mood, now)[i] == s[i]
    ensures forall i :: 0 <= i < |s| && s[i].id == id ==> SaveInto(s, id, content, mood, now)[i] == Edited(s[i], content, mood, now)
    ensures UniqueEntryIds(SaveInto(s, id, content, mood, now))
  {
    var r := SaveInto(s, id, content, mood, now);
    var found := FindEntry(s, id);
    if found.Some? {
      forall i | 0 <= i < |s| && s[i].id == id ensures s[i] == found.value {
        FindEntryUnique(s, s[i]);
      }
      forall i, j | 0 <= i < j < |r| ensures EntryKey(r[i]) != EntryKey(r[j]) {
        assert EntryKey(s[i]) != EntryKey(s[j]);
      }
    }
  }

  /** Saving the same text and mood twice at the same moment leaves the entries as saving once does. */
  lemma SaveIntoIdempotent(s: seq<JournalEntry>, id: EntryId, content: string, mood: Option<Moods.Mood>, now: Timestamp)
    requires UniqueEntryIds(s)
    ensures SaveInto(SaveInto(s, id, content, mood, now), id, content, mood, now) == SaveInto(s, id, content, mood, now)
  {
    var r := SaveInto(s, id, content, mood, now);
    SaveIntoSpec(s, id, content, mood, now);
    SaveIntoSpec(r, id, content, mood, now);
    var r2 := SaveInto(r, id, content, mood, now);
    forall i | 0 <= i < |r| ensures r2[i] == r[i] {
      if r[i].id == id {
        assert r[i] == Edited(s[i], content, mood, now);
      }
    }
  }

  // ---------------------------------------------------------------------------------------------
  // The view model

  class HomeViewModel {
    /** `todaysPrompt`, by id. */
    var todaysPrompt: Option<PromptId>
    /** `todaysEntry`, by id. */
    var todaysEntry: Option<EntryId>
    var isShowingEditor: bool
    /** `modelContext`: none until `configure`. */
    var store: Store?
    /** `promptService`: none until `configure`. */
    var promptService: PromptService?

    ghost predicate Valid()
      reads this, store, promptService
    {
      && (store != null ==> store.Valid())
      && (promptService != null ==> promptService.store == store)
      && (todaysEntry.Some? ==> store != null)
    }

    constructor ()
      ensures Valid()
      ensures todaysPrompt == None && todaysEntry == None && !isShowingEditor
      ensures store == null && promptService == null
    {
      todaysPrompt, todaysEntry, isShowingEditor := None, None, false;
      store, promptService := null, null;
    }

    /** The stored entries; none without a store. */
    function Entries(): seq<JournalEntry>
      reads this, store
    {
      if store == null then [] else store.entries
    }

    /** The stored prompts; none without a store. */
    function Prompts(): seq<DailyPrompt>
      reads this, store
    {
      if store == null then [] else store.prompts
    }

    /** `hasWrittenToday`. */
    predicate HasWrittenToday()
      reads this
    {
      todaysEntry.Some?
    }

    /** `configure(modelContext:promptService:)`, then `loadTodaysData` at `now`. */
    method Configure(s: Store, ps: PromptService, now: Timestamp)
      requires s.Valid() && ps.store == s
      modifies this
      ensures Valid() && store == s && promptService == ps
      ensures isShowingEditor == old(isShowingEditor)
      ensures todaysPrompt == (match TodaysPrompt(s.prompts, s.entries, now) case None => None case Some(p) => Some(p.id))
      ensures todaysEntry == (match TodaysEntry(s.entries, now) case None => None case Some(e) => Some(e.id))
      ensures HasWrittenToday() <==> exists e :: e in s.entries && IsToday(e.createdAt, now)
    {
      ghost var editor := isShowingEditor;
      store := s;
      promptService := ps;
      todaysEntry := None;
      assert isShowingEditor == editor;
      LoadTodaysData(now);
    }

    /** `loadTodaysData` at `now`: today's prompt from the service and today's entry from the store. */
    method LoadTodaysData(now: Timestamp)
      requires Valid()
      modifies this
      ensures Valid()
      ensures store == old(store) && promptService == old(promptService) && isShowingEditor == old(isShowingEditor)
      ensures todaysPrompt ==
                (if promptService == null then None
                 else match TodaysPrompt(Prompts(), Entries(), now) case None => None case Some(p) => Some(p.id))
      ensures todaysEntry ==
                (if store == null then None
                 else match TodaysEntry(store.entries, now) case None => None case Some(e) => Some(e.id))
      ensures HasWrittenToday() <==> exists e :: e in Entries() && IsToday(e.createdAt, now)
    {
      if promptService != null {
        var p := promptService.GetTodaysPrompt(now);
        todaysPrompt := if p.Some? then Some(p.value.id) else None;
      } else {
        todaysPrompt := None;
      }
      if store != null {
        var e := TodaysEntry(store.entries, now);
        TodaysEntrySpec(store.entries, now);
        todaysEntry := if e.Some? then Some(e.value.id) else None;
      } else {
        todaysEntry := None;
      }
    }

    /**
     * `createOrEditEntry` at `now`: when there is no entry for today yet, insert one linked to
     * today's prompt and mark that prompt used; then show the editor.
     */
    method CreateOrEditEntry(now: Timestamp)
      requires Valid()
      modifies this, store
      ensures Valid()
      ensures store == old(store) && promptService == old(promptService) && todaysPrompt == old(todaysPrompt)
      ensures isShowingEditor
      ensures old(todaysEntry).Some? || store == null ==>
                todaysEntry == old(todaysEntry) && (store != null ==> unchanged(store))
      ensures old(todaysEntry).None? && store != null ==>
                && todaysEntry.Some?
                && (forall e :: e in old(store.entries) ==> e.id != todaysEntry.value)
                && store.entries == old(store.entries) + [NewEntry(todaysEntry.value, now, prompt := todaysPrompt)]
                && store.prompts ==
                     (if todaysPrompt.Some? && promptService != null then MarkUsed(old(store.prompts), todaysPrompt.value, now)
                      else old(store.prompts))
    {
      if todaysEntry.None? && store != null {
        var id := store.NewId();
        store.InsertEntry(NewEntry(id, now, prompt := todaysPrompt));
        if todaysPrompt.Some? && promptService != null {
          promptService.MarkPromptAsUsed(todaysPrompt.value, now);
        }
        todaysEntry := Some(id);
      }
      isShowingEditor := true;
    }

    /** `saveEntry(content:mood:)` at `now`: write the text, the mood and `updatedAt` into today's entry. */
    method SaveEntry(content: string, mood: Option<Moods.Mood>, now: Timestamp)
      requires Valid()
      modifies store
      ensures Valid()
      ensures todaysEntry.None? ==> store == null || unchanged(store)
      ensures todaysEntry.Some? ==>
                && store.entries == SaveInto(old(store.entries), todaysEntry.value, content, mood, now)
                && store.prompts == old(store.prompts) && store.nextId == old(store.nextId)
    {
      if todaysEntry.Some? {
        var found := FindEntry(store.entries, todaysEntry.value);
        if found.Some? {
          store.UpdateEntry(Edited(found.value, content, mood, now));
        }
      }
    }

    /** `refreshData`: reload today's prompt and entry. */
    method RefreshData(now: Timestamp)
      requires Valid()
      modifies this
      ensures Valid()
      ensures store == old(store) && promptService == old(promptService) && isShowingEditor == old(isShowingEditor)
      ensures todaysPrompt ==
                (if promptService == null then None
                 else match TodaysPrompt(Prompts(), Entries(), now) case None => None case Some(p) => Some(p.id))
      ensures todaysEntry ==
                (if store == null then None
                 else match TodaysEntry(store.entries, now) case None => None case Some(e) => Some(e.id))
    {
      LoadTodaysData(now);
    }

    /** `changePrompt`: switch to another stored prompt; keep the current one when there is none to switch to. */
    method ChangePrompt()
      requires Valid()
      modifies this
      ensures Valid()
      ensures store == old(store) && promptService == old(promptService)
      ensures todaysEntry == old(todaysEntry) && isShowingEditor == old(isShowingEditor)
      ensures promptService == null || Prompts() == [] ==> todaysPrompt == old(todaysPrompt)
      ensures promptService != null && |Prompts()| == 1 ==> todaysPrompt == Some(Prompts()[0].id)
      ensures promptService != null && |Prompts()| > 1 ==>
                && todaysPrompt.Some? && FindPrompt(Prompts(), todaysPrompt.value).Some?
                && (old(todaysPrompt).Some? ==> todaysPrompt.value != old(todaysPrompt).value)
    {
      if promptService != null {
        var newPrompt := promptService.GetRandomPrompt(todaysPrompt);
        if newPrompt.Some? {
          todaysPrompt := Some(newPrompt.value.id);
          if |Prompts()| > 1 {
            assert newPrompt.value in Prompts();
          }
        }
      }
    }
  }
}
