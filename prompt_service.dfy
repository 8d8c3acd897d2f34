/**
 * `PromptService`: the daily prompt rotation over the stored prompts, the merge of the bundled catalog
 * into the store, the "another prompt" pick, and marking a prompt as used.
 */
module PromptServices {
  import opened Wrappers
  import opened Seqs
  import opened Dates
  import opened Categories
  import opened DailyPrompts
  import opened JournalEntries
  import opened Storage

  /** Length of the do-not-repeat window, in days. */
  const RecentWindowDays: int := 7

  /** Whether an entry was created within the window before `now` (`createdAt >= now - 7 days`). */
  predicate IsRecent(e: JournalEntry, now: Timestamp) {
    e.createdAt >= AddDays(now, -RecentWindowDays)
  }

  /** `getRecentlyUsedPromptIds`: the prompts linked from entries created in the last seven days. */
  function RecentlyUsedPromptIds(entries: seq<JournalEntry>, now: Timestamp): (ids: set<PromptId>)
    ensures forall e :: e in entries && IsRecent(e, now) && e.prompt.Some? ==> e.prompt.value in ids
    ensures forall id :: id in ids ==> exists e :: e in entries && IsRecent(e, now) && e.prompt == Some(id)
  {
    set e | e in entries && IsRecent(e, now) && e.prompt.Some? :: e.prompt.value
  }

  /** Whether a prompt is outside a set of ids. */
  function NotAmong(ids: set<PromptId>): DailyPrompt -> bool {
    (p: DailyPrompt) => p.id !in ids
  }

  /** The prompts today's pick chooses from: the text-sorted prompts not recently used, or all of them if every one was. */
  function Candidates(prompts: seq<DailyPrompt>, recent: set<PromptId>): (c: seq<DailyPrompt>)
    ensures SortedBy(c, TextOrder)
    ensures forall p :: p in c ==> p in prompts
    ensures (exists p :: p in prompts && p.id !in recent) ==> forall p :: p in prompts && p.id !in recent <==> p in c
    ensures (forall p :: p in prompts ==> p.id in recent) ==> c == FetchPromptsByText(prompts)
    ensures |c| == 0 <==> |prompts| == 0
  {
    var all := FetchPromptsByText(prompts);
    assert forall p :: p in all <==> p in prompts by {
      assert forall p :: p in all <==> p in multiset(all);
    }
    var available := Filter(all, NotAmong(recent));
    FilterSorted(all, NotAmong(recent), TextOrder);
    assert (forall p :: p in prompts ==> p.id in recent) ==> available == [] by {
      if forall p :: p in prompts ==> p.id in recent {
        FilterNone(all, NotAmong(recent));
      }
    }
    if available == [] then all else available
  }

  /** `getTodaysPrompt` at time `now`: entry `dayOfYear % count` of the candidates; none without prompts. */
  function TodaysPrompt(prompts: seq<DailyPrompt>, entries: seq<JournalEntry>, now: Timestamp): Option<DailyPrompt> {
    var candidates := Candidates(prompts, RecentlyUsedPromptIds(entries, now));
    if candidates == [] then None
    else Some(candidates[DayOfYear(now) % |candidates|])
  }

  /** Today's prompt exists iff there are prompts, and then it is a stored one. */
  lemma TodaysPromptExists(prompts: seq<DailyPrompt>, entries: seq<JournalEntry>, now: Timestamp)
    ensures TodaysPrompt(prompts, entries, now).None? <==> prompts == []
    ensures TodaysPrompt(prompts, entries, now).Some? ==> TodaysPrompt(prompts, entries, now).value in prompts
  {
  }

  /** A prompt that no recent entry links to is picked whenever one exists; otherwise the pick ranges over all prompts. */
  lemma TodaysPromptAvoidsRecent(prompts: seq<DailyPrompt>, entries: seq<JournalEntry>, now: Timestamp)
    requires exists p :: p in prompts && p.id !in RecentlyUsedPromptIds(entries, now)
    ensures TodaysPrompt(prompts, entries, now).Some?
    ensures TodaysPrompt(prompts, entries, now).value.id !in RecentlyUsedPromptIds(entries, now)
  {
    var recent := RecentlyUsedPromptIds(entries, now);
    var c := Candidates(prompts, recent);
    var p :| p in prompts && p.id !in recent;
    assert p in c;
    assert c[DayOfYear(now) % |c|] in c;
  }

  /** When every prompt was used recently, the pick is entry `dayOfYear % count` of all prompts sorted by text. */
  lemma TodaysPromptFallback(prompts: seq<DailyPrompt>, entries: seq<JournalEntry>, now: Timestamp)
    requires prompts != []
    requires forall p :: p in prompts ==> p.id in RecentlyUsedPromptIds(entries, now)
    ensures var all := FetchPromptsByText(prompts);
      TodaysPrompt(prompts, entries, now) == Some(all[DayOfYear(now) % |all|])
  {
  }

  /**
   * The pick is determined by the day of the year and the set of recently used ids: at two times with
   * the same day of the year and the same recent set, the same prompts give the same pick.
   */
  lemma TodaysPromptDeterministic(prompts: seq<DailyPrompt>, entries1: seq<JournalEntry>, now1: Timestamp,
                                  entries2: seq<JournalEntry>, now2: Timestamp)
    requires DayOfYear(now1) == DayOfYear(now2)
    requires RecentlyUsedPromptIds(entries1, now1) == RecentlyUsedPromptIds(entries2, now2)
    ensures TodaysPrompt(prompts, entries1, now1) == TodaysPrompt(prompts, entries2, now2)
  {
  }

  /** An entry older than the window does not keep its prompt out of the pick. */
  lemma OldEntriesDoNotCount(entries: seq<JournalEntry>, e: JournalEntry, now: Timestamp)
    requires !IsRecent(e, now)
    ensures RecentlyUsedPromptIds(entries + [e], now) == RecentlyUsedPromptIds(entries, now)
  {
    assert forall x :: x in entries + [e] <==> x in entries || x == e;
  }

  /** Whether a catalog item's text is outside a set of texts. */
  function TextNotIn(texts: set<string>): PromptData -> bool {
    (d: PromptData) => d.text !in texts
  }

  /** The catalog items whose text is not among the existing texts, in catalog order. */
  function MissingItems(existingTexts: set<string>, catalog: seq<PromptData>): (r: seq<PromptData>)
    ensures forall d :: d in r <==> d in catalog && d.text !in existingTexts
  {
    Filter(catalog, TextNotIn(existingTexts))
  }

  /** The texts of stored prompts. */
  function Texts(prompts: seq<DailyPrompt>): (ts: set<string>)
    ensures forall p :: p in prompts ==> p.text in ts
    ensures forall t :: t in ts ==> exists p :: p in prompts && p.text == t
  {
    set p | p in prompts :: p.text
  }

  /** A freshly made prompt for catalog item `d`. */
  ghost predicate MadeFrom(p: DailyPrompt, d: PromptData) {
    p.text == d.text && p.categoryRaw == RawValue(d.category) && p.scheduledDate == None && p.lastUsedDate == None
  }

  /** `after` is `before` followed by one new prompt per item of `items`, in order. */
  ghost predicate Appended(before: seq<DailyPrompt>, after: seq<DailyPrompt>, items: seq<PromptData>) {
    && |after| == |before| + |items|
    && (forall k :: 0 <= k < |before| ==> after[k] == before[k])
    && forall k :: 0 <= k < |items| ==> MadeFrom(after[|before| + k], items[k])
  }

  /** After a merge, every catalog text is stored, so merging the same catalog again adds nothing. */
  lemma SyncTwiceAddsNothing(before: seq<DailyPrompt>, after: seq<DailyPrompt>, catalog: seq<PromptData>)
    requires Appended(before, after, MissingItems(Texts(before), catalog))
    ensures MissingItems(Texts(after), catalog) == []
  {
    var items := MissingItems(Texts(before), catalog);
    forall d | d in catalog ensures d.text in Texts(after) {
      if d.text in Texts(before) {
        var p :| p in before && p.text == d.text;
        var j :| 0 <= j < |before| && before[j] == p;
        assert after[j] == p;
      } else {
        assert d in items;
        var k :| 0 <= k < |items| && items[k] == d;
        assert MadeFrom(after[|before| + k], items[k]);
        assert after[|before| + k] in after;
      }
    }
    FilterNone(catalog, TextNotIn(Texts(after)));
  }

  /**
   * The existing texts are read once, before the merge loop, so two catalog items with the same new
   * text are both inserted.
   */
  lemma DuplicateCatalogTextsBothInserted(existingTexts: set<string>, d: PromptData)
    requires d.text !in existingTexts
    ensures MissingItems(existingTexts, [d, d]) == [d, d]
  {
    FilterAll([d, d], TextNotIn(existingTexts));
  }

  /** `s` with the prompt whose id is `id` marked as used at `now`. */
  function MarkUsed(s: seq<DailyPrompt>, id: PromptId, now: Timestamp): (r: seq<DailyPrompt>)
    ensures |r| == |s|
    ensures forall i :: 0 <= i < |s| ==> r[i] == s[i].(lastUsedDate := r[i].lastUsedDate)
    ensures forall i :: 0 <= i < |s| ==> r[i].lastUsedDate == (if s[i].id == id then Some(now) else s[i].lastUsedDate)
  {
    seq(|s|, i requires 0 <= i < |s| => if s[i].id == id then s[i].(lastUsedDate := Some(now)) else s[i])
  }

  /** Marking a prompt used changes no text and no id, so the stored texts stay the same. */
  lemma MarkUsedKeepsTexts(s: seq<DailyPrompt>, id: PromptId, now: Timestamp)
    ensures Texts(MarkUsed(s, id, now)) == Texts(s)
  {
    var r := MarkUsed(s, id, now);
    forall t | t in Texts(r) ensures t in Texts(s) {
      var p :| p in r && p.text == t;
      var i :| 0 <= i < |r| && r[i] == p;
      assert s[i] in s;
    }
    forall t | t in Texts(s) ensures t in Texts(r) {
      var p :| p in s && p.text == t;
      var i :| 0 <= i < |s| && s[i] == p;
      assert r[i] in r;
    }
  }

  class PromptService {
    /** `modelContext`: none until `configure`. */
    var store: Store?
    /** The catalog loaded from the bundle. */
    var cachedPrompts: seq<PromptData>

    ghost predicate Valid()
      reads this, store
    {
      store != null ==> store.Valid()
    }

    constructor ()
      ensures Valid() && store == null && cachedPrompts == []
    {
      store, cachedPrompts := null, [];
    }

    /** The stored prompts; none without a store. */
    function Prompts(): seq<DailyPrompt>
      reads this, store
    {
      if store == null then [] else store.prompts
    }

    /** The stored entries; none without a store. */
    function Entries(): seq<JournalEntry>
      reads this, store
    {
      if store == null then [] else store.entries
    }

    /** `fetchAllPrompts`. */
    function AllPrompts(): (r: seq<DailyPrompt>)
      reads this, store
      ensures multiset(r) == multiset(Prompts()) && SortedBy(r, TextOrder)
    {
      FetchPromptsByText(Prompts())
    }

    /** `getTodaysPrompt`, at time `now`. */
    function GetTodaysPrompt(now: Timestamp): (r: Option<DailyPrompt>)
      reads this, store
      ensures r.None? <==> Prompts() == []
      ensures r.Some? ==> r.value in Prompts()
    {
      TodaysPromptExists(Prompts(), Entries(), now);
      TodaysPrompt(Prompts(), Entries(), now)
    }

    /**
     * `configure(with:)`: attach the store, load the catalog (`catalog` is the decoded bundle file,
     * none when it is missing or malformed, which keeps the previous catalog) and merge it.
     */
    method Configure(s: Store, catalog: Option<seq<PromptData>>)
      requires s.Valid()
      modifies this, s
      ensures Valid() && store == s
      ensures cachedPrompts == (if catalog.Some? then catalog.value else old(cachedPrompts))
      ensures Appended(old(s.prompts), s.prompts, MissingItems(Texts(old(s.prompts)), cachedPrompts))
      ensures s.entries == old(s.entries)
    {
      store := s;
      if catalog.Some? {
        cachedPrompts := catalog.value;
      }
      Sync();
    }

    /** `syncPromptsToSwiftData`: insert a prompt for every catalog item whose text no stored prompt has. */
    method Sync()
      requires Valid()
      modifies store
      ensures Valid()
      ensures store != null ==> Appended(old(store.prompts), store.prompts, MissingItems(Texts(old(store.prompts)), cachedPrompts))
      ensures store != null ==> store.entries == old(store.entries)
    {
      var context := store;
      if context == null {
        return;
      }
      var existingPrompts := FetchPromptsByText(context.prompts);
      var existingTexts := Texts(existingPrompts);
      SortingKeepsTexts(context.prompts);
      ghost var before := context.prompts;
      var catalog := cachedPrompts;
      var i := 0;
      while i < |catalog|
        modifies context
        invariant 0 <= i <= |catalog|
        invariant context.Valid() && context.entries == old(context.entries)
        invariant Appended(before, context.prompts, MissingItems(existingTexts, catalog[..i]))
      {
        TakeSnoc(catalog, i);
        MergeItem(context, existingTexts, catalog[i], before, catalog[..i]);
        i := i + 1;
      }
      assert catalog[..i] == catalog;
    }

    /** `markPromptAsUsed`: set the `lastUsedDate` of the prompt with id `id` to `now`. */
    method MarkPromptAsUsed(id: PromptId, now: Timestamp)
      requires Valid()
      modifies store
      ensures Valid()
      ensures store != null ==> store.prompts == MarkUsed(old(store.prompts), id, now)
      ensures store != null ==> store.entries == old(store.entries) && store.nextId == old(store.nextId)
    {
      if store != null {
        var stored := FindPrompt(store.prompts, id);
        if stored.Some? {
          store.UpdatePrompt(stored.value.(lastUsedDate := Some(now)));
        }
        MarkUsedIsUpdate(old(store.prompts), id, now, stored);
      }
    }

    /** `getRandomPrompt(excluding:)`: any stored prompt other than the one with id `current`, or the only one there is. */
    method GetRandomPrompt(current: Option<PromptId>) returns (r: Option<DailyPrompt>)
      requires Valid()
      ensures |Prompts()| == 0 ==> r == None
      ensures |Prompts()| == 1 ==> r == Some(Prompts()[0])
      ensures |Prompts()| > 1 ==> r.Some? && r.value in Prompts() && (current.Some? ==> r.value.id != current.value)
    {
      var allPrompts := AllPrompts();
      assert |allPrompts| == |multiset(Prompts())| == |Prompts()|;
      if |allPrompts| <= 1 {
        if allPrompts == [] {
          return None;
        }
        assert allPrompts[0] in multiset(Prompts());
        return Some(allPrompts[0]);
      }
      var availablePrompts := Filter(allPrompts, OtherThan(current));
      TwoPromptsLeaveOne(allPrompts, Prompts(), current);
      assert availablePrompts[0] in availablePrompts;
      var chosen :| chosen in availablePrompts;
      assert chosen in multiset(Prompts());
      r := Some(chosen);
    }
  }

  /** `$0.id != currentPrompt?.id`: every prompt passes when there is no current one. */
  function OtherThan(current: Option<PromptId>): DailyPrompt -> bool {
    (p: DailyPrompt) => current.None? || p.id != current.value
  }

  /** With unique ids, excluding one prompt from two or more leaves at least one. */
  lemma TwoPromptsLeaveOne(all: seq<DailyPrompt>, prompts: seq<DailyPrompt>, current: Option<PromptId>)
    requires multiset(all) == multiset(prompts) && UniquePromptIds(prompts) && |all| > 1
    ensures Filter(all, OtherThan(current)) != []
  {
    PermutationUniqueBy(prompts, all, PromptKey);
    assert PromptKey(all[0]) != PromptKey(all[1]);
    if OtherThan(current)(all[0]) {
      assert all[0] in Filter(all, OtherThan(current));
    } else {
      assert all[1] in Filter(all, OtherThan(current));
    }
  }

  /** Sorting the prompts does not change their texts. */
  lemma SortingKeepsTexts(s: seq<DailyPrompt>)
    ensures Texts(FetchPromptsByText(s)) == Texts(s)
  {
    var sorted := FetchPromptsByText(s);
    assert forall p :: p in sorted <==> p in s by {
      assert forall p :: p in sorted <==> p in multiset(sorted);
    }
  }

  /** `modelContext.insert(DailyPrompt(text:category:))` for one catalog item. */
  method InsertNewPrompt(context: Store, d: PromptData) returns (p: DailyPrompt)
    requires context.Valid()
    modifies context
    ensures context.Valid() && MadeFrom(p, d)
    ensures context.prompts == old(context.prompts) + [p] && context.entries == old(context.entries)
  {
    var id := context.NewId();
    p := NewPrompt(id, d.text, d.category);
    context.InsertPrompt(p);
  }

  /** One pass of the merge loop: insert a prompt for catalog item `d` when its text is not among the existing ones. */
  method MergeItem(context: Store, existingTexts: set<string>, d: PromptData,
                   ghost before: seq<DailyPrompt>, ghost items: seq<PromptData>)
    requires context.Valid() && Appended(before, context.prompts, MissingItems(existingTexts, items))
    modifies context
    ensures context.Valid() && context.entries == old(context.entries)
    ensures Appended(before, context.prompts, MissingItems(existingTexts, items + [d]))
  {
    MissingItemsSnoc(existingTexts, items, d);
    if d.text !in existingTexts {
      ghost var prev := context.prompts;
      var p := InsertNewPrompt(context, d);
      AppendedSnoc(before, prev, MissingItems(existingTexts, items), p, d);
    }
  }

  lemma MissingItemsSnoc(existingTexts: set<string>, items: seq<PromptData>, d: PromptData)
    ensures MissingItems(existingTexts, items + [d])
         == MissingItems(existingTexts, items) + (if d.text !in existingTexts then [d] else [])
  {
    FilterSnoc(items, d, TextNotIn(existingTexts));
  }

  lemma AppendedSnoc(before: seq<DailyPrompt>, prev: seq<DailyPrompt>, items: seq<PromptData>, p: DailyPrompt, d: PromptData)
    requires Appended(before, prev, items) && MadeFrom(p, d)
    ensures Appended(before, prev + [p], items + [d])
  {
  }

  lemma MarkUsedIsUpdate(s: seq<DailyPrompt>, id: PromptId, now: Timestamp, found: Option<DailyPrompt>)
    requires UniquePromptIds(s) && found == FindPrompt(s, id)
    ensures found.Some? ==> ReplacePrompt(s, found.value.(lastUsedDate := Some(now))) == MarkUsed(s, id, now)
    ensures found.None? ==> s == MarkUsed(s, id, now)
  {
  }
}
