/**
 * The persistent store (`ModelContext` over the SwiftData container), as an in-memory collection of
 * entry and prompt records. A reference from one model object to another is kept as the other's id.
 * Saves (`try? modelContext.save()`) always succeed in this model.
 */
module Storage {
  import opened Wrappers
  import opened Seqs
  import opened DailyPrompts
  import opened JournalEntries

  function EntryKey(e: JournalEntry): EntryId {
    e.id
  }

  function PromptKey(p: DailyPrompt): PromptId {
    p.id
  }

  ghost predicate UniqueEntryIds(s: seq<JournalEntry>) {
    UniqueBy(s, EntryKey)
  }

  ghost predicate UniquePromptIds(s: seq<DailyPrompt>) {
    UniqueBy(s, PromptKey)
  }

  /** The entry with id `id`, if there is one. */
  function FindEntry(s: seq<JournalEntry>, id: EntryId): (r: Option<JournalEntry>)
    ensures r.Some? ==> r.value in s && r.value.id == id
    ensures r.None? ==> forall e :: e in s ==> e.id != id
  {
    if s == [] then None
    else if s[0].id == id then Some(s[0])
    else FindEntry(s[1..], id)
  }

  /** The prompt with id `id`, if there is one; following a link to a deleted prompt gives none. */
  function FindPrompt(s: seq<DailyPrompt>, id: PromptId): (r: Option<DailyPrompt>)
    ensures r.Some? ==> r.value in s && r.value.id == id
    ensures r.None? ==> forall p :: p in s ==> p.id != id
  {
    if s == [] then None
    else if s[0].id == id then Some(s[0])
    else FindPrompt(s[1..], id)
  }

  /** With unique ids, the record found for an id is the one stored under it. */
  lemma {:induction false} FindEntryUnique(s: seq<JournalEntry>, e: JournalEntry)
    requires UniqueEntryIds(s) && e in s
    ensures FindEntry(s, e.id) == Some(e)
  {
    if s[0] != e {
      assert e in s[1..];
      assert UniqueEntryIds(s[1..]);
      FindEntryUnique(s[1..], e);
      var k :| 0 < k < |s| && s[k] == e;
      assert EntryKey(s[0]) != EntryKey(s[k]);
    }
  }

  /** Whether an entry's id is outside `ids`. */
  function IdNotIn(ids: set<EntryId>): JournalEntry -> bool {
    (e: JournalEntry) => e.id !in ids
  }

  /** `s` without the entries whose id is in `ids`. */
  function RemoveEntries(s: seq<JournalEntry>, ids: set<EntryId>): (r: seq<JournalEntry>)
    ensures forall e :: e in r <==> e in s && e.id !in ids
    ensures IsSubsequence(r, s)
  {
    FilterIsSubsequence(s, IdNotIn(ids));
    Filter(s, IdNotIn(ids))
  }

  /** Removing one set of ids and then another is removing both. */
  lemma RemoveEntriesTwice(s: seq<JournalEntry>, a: set<EntryId>, b: set<EntryId>)
    ensures RemoveEntries(RemoveEntries(s, a), b) == RemoveEntries(s, a + b)
  {
    FilterTwice(s, IdNotIn(a), IdNotIn(b), IdNotIn(a + b));
  }

  /** Removing no ids removes nothing. */
  lemma RemoveNoEntries(s: seq<JournalEntry>)
    ensures RemoveEntries(s, {}) == s
  {
    FilterAll(s, IdNotIn({}));
  }

  /** `s` with the entry whose id is `e.id` replaced by `e`. */
  function ReplaceEntry(s: seq<JournalEntry>, e: JournalEntry): (r: seq<JournalEntry>)
    ensures |r| == |s|
    ensures forall i :: 0 <= i < |s| ==> r[i].id == s[i].id
    ensures forall i :: 0 <= i < |s| && s[i].id != e.id ==> r[i] == s[i]
    ensures forall i :: 0 <= i < |s| && s[i].id == e.id ==> r[i] == e
  {
    seq(|s|, i requires 0 <= i < |s| => if s[i].id == e.id then e else s[i])
  }

  /** `s` with the prompt whose id is `p.id` replaced by `p`. */
  function ReplacePrompt(s: seq<DailyPrompt>, p: DailyPrompt): (r: seq<DailyPrompt>)
    ensures |r| == |s|
    ensures forall i :: 0 <= i < |s| ==> r[i].id == s[i].id
    ensures forall i :: 0 <= i < |s| && s[i].id != p.id ==> r[i] == s[i]
    ensures forall i :: 0 <= i < |s| && s[i].id == p.id ==> r[i] == p
  {
    seq(|s|, i requires 0 <= i < |s| => if s[i].id == p.id then p else s[i])
  }

  /** The `.nullify` delete rule: every entry linked to prompt `id` loses the link; no entry is removed. */
  function NullifyPrompt(s: seq<JournalEntry>, id: PromptId): (r: seq<JournalEntry>)
    ensures |r| == |s|
    ensures forall i :: 0 <= i < |s| ==> r[i].prompt != Some(id)
    ensures forall i :: 0 <= i < |s| ==> r[i].prompt == (if s[i].prompt == Some(id) then None else s[i].prompt)
    ensures forall i :: 0 <= i < |s| ==> r[i] == s[i].(prompt := r[i].prompt)
  {
    seq(|s|, i requires 0 <= i < |s| => if s[i].prompt == Some(id) then s[i].(prompt := None) else s[i])
  }

  class Store {
    /** Entries in insertion order; fetches sort them. */
    var entries: seq<JournalEntry>
    /** Prompts in insertion order; fetches sort them. */
    var prompts: seq<DailyPrompt>
    /** Every id handed out so far is below this, which stands for `UUID()` never repeating. */
    var nextId: nat

    ghost predicate Valid()
      reads this
    {
      && (forall i :: 0 <= i < |entries| ==> entries[i].id < nextId)
      && (forall i :: 0 <= i < |prompts| ==> prompts[i].id < nextId)
      && UniqueEntryIds(entries)
      && UniquePromptIds(prompts)
    }

    constructor ()
      ensures Valid()
      ensures entries == [] && prompts == []
    {
      entries, prompts, nextId := [], [], 0;
    }

    /** A new `UUID()`: an id no stored record has. */
    method NewId() returns (id: nat)
      requires Valid()
      modifies this
      ensures Valid()
      ensures id == old(nextId) && nextId == id + 1
      ensures entries == old(entries) && prompts == old(prompts)
      ensures forall e :: e in entries ==> e.id != id
      ensures forall p :: p in prompts ==> p.id != id
    {
      id := nextId;
      nextId := nextId + 1;
    }

    /** `modelContext.insert` of a new entry object. */
    method InsertEntry(e: JournalEntry)
      requires Valid()
      requires e.id < nextId && forall x :: x in entries ==> x.id != e.id
      modifies this
      ensures Valid()
      ensures entries == old(entries) + [e]
      ensures prompts == old(prompts) && nextId == old(nextId)
    {
      entries := entries + [e];
    }

    /** `modelContext.insert` of a new prompt object. */
    method InsertPrompt(p: DailyPrompt)
      requires Valid()
      requires p.id < nextId && forall x :: x in prompts ==> x.id != p.id
      modifies this
      ensures Valid()
      ensures prompts == old(prompts) + [p]
      ensures entries == old(entries) && nextId == old(nextId)
    {
      prompts := prompts + [p];
    }

    /** Writing the fields of an entry object; no effect when the entry is no longer stored. */
    method UpdateEntry(e: JournalEntry)
      requires Valid()
      modifies this
      ensures Valid()
      ensures entries == ReplaceEntry(old(entries), e)
      ensures prompts == old(prompts) && nextId == old(nextId)
    {
      entries := ReplaceEntry(entries, e);
    }

    /** Writing the fields of a prompt object; no effect when the prompt is no longer stored. */
    method UpdatePrompt(p: DailyPrompt)
      requires Valid()
      modifies this
      ensures Valid()
      ensures prompts == ReplacePrompt(old(prompts), p)
      ensures entries == old(entries) && nextId == old(nextId)
    {
      prompts := ReplacePrompt(prompts, p);
    }

    /** `modelContext.delete` of an entry; deleting one that is already gone does nothing. */
    method DeleteEntry(id: EntryId)
      requires Valid()
      modifies this
      ensures Valid()
      ensures entries == RemoveEntries(old(entries), {id})
      ensures prompts == old(prompts) && nextId == old(nextId)
    {
      var kept := RemoveEntries(entries, {id});
      SubsequenceUniqueBy(kept, entries, EntryKey);
      forall i | 0 <= i < |kept| ensures kept[i].id < nextId {
        assert kept[i] in entries;
      }
      entries := kept;
    }

    /** `modelContext.delete` of a prompt, applying the `.nullify` rule to the entries that reference it. */
    method DeletePrompt(id: PromptId)
      requires Valid()
      modifies this
      ensures Valid()
      ensures prompts == Filter(old(prompts), (p: DailyPrompt) => p.id != id)
      ensures entries == NullifyPrompt(old(entries), id)
      ensures nextId == old(nextId)
    {
      var kept := Filter(prompts, (p: DailyPrompt) => p.id != id);
      FilterIsSubsequence(prompts, (p: DailyPrompt) => p.id != id);
      SubsequenceUniqueBy(kept, prompts, PromptKey);
      forall i | 0 <= i < |kept| ensures kept[i].id < nextId {
        assert kept[i] in prompts;
      }
      prompts := kept;
      entries := NullifyPrompt(entries, id);
    }
  }

  // ---------------------------------------------------------------------------------------------
  // Fetch orderings (`FetchDescriptor` sort descriptors)

  /** `SortDescriptor(\.createdAt, order: .reverse)`: `a` may come before `b`. */
  predicate NewerOrSame(a: JournalEntry, b: JournalEntry) {
    a.createdAt >= b.createdAt
  }

  lemma NewerOrSameIsTotalPreorder()
    ensures TotalPreorder(NewerOrSame)
  {
  }

  /** Fetching entries newest first: the stored entries, reordered by descending `createdAt`. */
  function FetchEntriesNewestFirst(s: seq<JournalEntry>): (r: seq<JournalEntry>)
    ensures multiset(r) == multiset(s) && |r| == |s|
    ensures SortedBy(r, NewerOrSame)
  {
    NewerOrSameIsTotalPreorder();
    SortBy(s, NewerOrSame)
  }

  /** Lexicographic order of texts by character code. */
  predicate TextLe(a: string, b: string)
    decreases |a|
  {
    |a| == 0 || (|b| > 0 && (a[0] < b[0] || (a[0] == b[0] && TextLe(a[1..], b[1..]))))
  }

  lemma {:induction false} TextLeTotal(a: string, b: string)
    ensures TextLe(a, b) || TextLe(b, a)
    decreases |a|
  {
    if |a| > 0 && |b| > 0 && a[0] == b[0] {
      TextLeTotal(a[1..], b[1..]);
    }
  }

  lemma {:induction false} TextLeTransitive(a: string, b: string, c: string)
    requires TextLe(a, b) && TextLe(b, c)
    ensures TextLe(a, c)
    decreases |a|
  {
    if |a| > 0 && a[0] == b[0] && b[0] == c[0] {
      TextLeTransitive(a[1..], b[1..], c[1..]);
    }
  }

  /** `SortDescriptor(\.text)`: `a` may come before `b`. */
  predicate TextOrder(a: DailyPrompt, b: DailyPrompt) {
    TextLe(a.text, b.text)
  }

  lemma TextOrderIsTotalPreorder()
    ensures TotalPreorder(TextOrder)
  {
    forall a: DailyPrompt, b: DailyPrompt ensures TextOrder(a, b) || TextOrder(b, a) {
      TextLeTotal(a.text, b.text);
    }
    forall a: DailyPrompt, b: DailyPrompt, c: DailyPrompt | TextOrder(a, b) && TextOrder(b, c)
      ensures TextOrder(a, c)
    {
      TextLeTransitive(a.text, b.text, c.text);
    }
  }

  /** `fetchAllPrompts`: the stored prompts, reordered by text. */
  function FetchPromptsByText(s: seq<DailyPrompt>): (r: seq<DailyPrompt>)
    ensures multiset(r) == multiset(s) && |r| == |s|
    ensures SortedBy(r, TextOrder)
  {
    TextOrderIsTotalPreorder();
    SortBy(s, TextOrder)
  }
}
