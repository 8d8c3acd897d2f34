# GratitudeClone, modelled in Dafny

GratitudeClone is an iOS gratitude journal. Each day the home screen offers a reflective prompt
picked from a bundled catalog and lets the user write one entry, with an optional mood, linked to
that prompt. The journal screen lists the entries grouped by month, filters them by text, prompt
category and mood, and shows the current run of consecutive writing days. The settings screen
stores preferences in `UserDefaults` and schedules one daily reminder when reminders are both
enabled and authorised.

This project models the logic under those screens and proves what it promises:

- the model enums and their raw-value round trips (`Mood`, `PromptCategory`, `AppTheme`);
- the records `JournalEntry` and `DailyPrompt`, with the `mood` and `category` accessors and the
  `.nullify` delete rule;
- the day arithmetic of `Date+Extensions`;
- the journal queries and the streak walk (`JournalViewModel`);
- the prompt rotation, the catalog merge and the "another prompt" pick (`PromptService`);
- today's-entry state machine (`HomeViewModel`);
- write-through preferences (`UserDefaultsService`) and the reminder policy (`SettingsViewModel`);
- the mood picker's toggle rule.

Modelling choices:

- **Time.** A timestamp is a whole number of seconds. Every day lasts 86400 seconds, so the day of
  `t` is `t / 86400`. Years and months follow the proleptic Gregorian calendar, computed from the
  day index.
- **Store.** The model context is a `Store` object holding the entry and prompt records as
  sequences and handing out fresh ids, which stand for `UUID()`. An object reference between
  records (`JournalEntry.prompt`), or from a view model to a record (`todaysEntry`,
  `todaysPrompt`), is the record's id. A view model reads the stored record by that id. Saves
  always succeed. The journal screen's loaded list of entries is the exception: it holds copies
  of the records as fetched (see "Left out").
- **Sharing.** The app configures the home view model and the prompt service with the same model
  context. The model keeps that as the home view model's invariant.
- **Text search.** `localizedCaseInsensitiveContains` is a parameter `contains` of the queries.
- **Month keys.** `monthYearFormatted` is the (year, month) pair it names.
- **Text sort.** The sort by prompt text is lexicographic by character code.
- **Random pick.** `randomElement()` is an unspecified choice (`:|`) among the candidates.
- **Outside world.** The current time, the decoded catalog file and the operating system's answers
  to notification requests are parameters.

Each operation that changes state is a method of a class with `modifies` clauses. Each method is
specified by functions of the old state, such as `RemoveEntries`, `MarkUsed`, `SaveInto`,
`Appended` and `ReminderPolicy`, and the properties of those functions are proved as lemmas.

## Model

| member | source | states |
|---|---|---|
| `Dates.StartOfDay` | GratitudeClone/Extensions/Date+Extensions.swift:9-11 | midnight of the timestamp's day: at or before it, less than a day before, same day index |
| `Dates.EndOfDay` | GratitudeClone/Extensions/Date+Extensions.swift:13-15 | one day after the start of the day, less one second; still the same day, and the next second is the next day |
| `Dates.AddDays` | GratitudeClone/ViewModels/JournalViewModel.swift:105 | adding `n` days moves the day index by exactly `n`, and the time by `n * 86400` seconds |
| `Dates.StartOfDayIdempotent` | GratitudeClone/Extensions/Date+Extensions.swift:9-11 | the start of the start of a day is that start |
| `Dates.SameDayIffSameStart` | GratitudeClone/Extensions/Date+Extensions.swift:34-36 | two timestamps are on the same day iff their days start at the same moment |
| `Dates.WithinOwnDay` | GratitudeClone/Extensions/Date+Extensions.swift:9-15 | every `d` satisfies `d.startOfDay <= d <= d.endOfDay`, and both bounds lie on `d`'s day |
| `Dates.SameDayIffWithin` | GratitudeClone/Extensions/Date+Extensions.swift:34-36 | `u` is on `t`'s day iff it lies between `t`'s start and end of day |
| `Dates.DaysFrom` | GratitudeClone/Extensions/Date+Extensions.swift:70-72 | `days(from:)` is the difference of the two day indices |
| `Dates.DaysFromSelf` | GratitudeClone/Extensions/Date+Extensions.swift:70-72 | `d.days(from: d) == 0` |
| `Dates.DayOfYear` | GratitudeClone/Extensions/Date+Extensions.swift:22-24 | the day's ordinal in its year lies in 1..366 |
| `Dates.StartOfMonth` | GratitudeClone/Extensions/Date+Extensions.swift:17-20 | the start of the month is never after the timestamp |
| `Dates.StartOfMonthSameMonth` | GratitudeClone/Extensions/Date+Extensions.swift:17-20 | the start of the month is at or before `t`, in the same year and month, on day 1 at midnight |
| `Dates.CivilShiftBack` | GratitudeClone/Extensions/Date+Extensions.swift:17-20 | going back no further than the first of the month keeps the year and month and lowers the day of the month by as much |
| `Dates.RelativeFormatted` | GratitudeClone/Extensions/Date+Extensions.swift:46-54 | the three branches are exclusive: today iff 0 days back, yesterday iff 1 day back, otherwise the date itself |
| `Dates.Hour` | GratitudeClone/ViewModels/HomeViewModel.swift:19 | the hour component lies in 0..23 |
| `Dates.Minute` | GratitudeClone/Services/UserDefaultsService.swift:47 | the minute component lies in 0..59 |
| `Dates.TimeOfDayRoundTrip` | GratitudeClone/Services/UserDefaultsService.swift:40-50 | a date built from an in-range hour and minute reads back that hour and minute |
| `Moods.FromRawValue` | GratitudeClone/Models/Mood.swift:8 | a decoded mood has the decoded string as its raw value |
| `Moods.AllMoodsComplete` | GratitudeClone/Models/Mood.swift:8-13 | exactly five moods, each listed once, covering every case |
| `Moods.RawValueRoundTrip` | GratitudeClone/Models/Mood.swift:8 | every raw value decodes to its mood; any other string decodes to none |
| `Moods.MappingsInjective` | GratitudeClone/Models/Mood.swift:15-43 | distinct moods have distinct raw values, emoji and labels |
| `Categories.FromRawValue` | GratitudeClone/Models/PromptCategory.swift:8 | a decoded category has the decoded string as its raw value |
| `Categories.AllCategoriesComplete` | GratitudeClone/Models/PromptCategory.swift:8-14 | exactly six categories, each listed once, covering every case |
| `Categories.RawValueRoundTrip` | GratitudeClone/Models/PromptCategory.swift:8 | every raw value decodes to its category; any other string decodes to none |
| `Categories.MappingsInjective` | GratitudeClone/Models/PromptCategory.swift:16-36 | distinct categories have distinct raw values, labels and icons |
| `DailyPrompts.DailyPrompt.Category` | GratitudeClone/Models/DailyPrompt.swift:20-21 | the category whose raw value is stored, or `.reflection` when no category has that raw value |
| `DailyPrompts.DailyPrompt.WithCategory` | GratitudeClone/Models/DailyPrompt.swift:22 | the setter makes the getter return the category set, and touches no other field |
| `DailyPrompts.NewPrompt` | GratitudeClone/Models/DailyPrompt.swift:25-37 | init stores the category's raw value; scheduled and last-used dates default to none |
| `DailyPrompts.CategoryRoundTrip` | GratitudeClone/Models/DailyPrompt.swift:20-23 | set-then-get returns the category; an unrecognised raw value reads as `.reflection` |
| `JournalEntries.JournalEntry.Mood` | GratitudeClone/Models/JournalEntry.swift:19-23 | a missing raw value reads as no mood; the raw value of a mood reads as that mood; any other string reads as no mood |
| `JournalEntries.JournalEntry.WithMood` | GratitudeClone/Models/JournalEntry.swift:24 | the setter makes the getter return the mood set, none included, and touches no other field |
| `JournalEntries.NewEntry` | GratitudeClone/Models/JournalEntry.swift:27-41 | init stores the given fields, both timestamps are `now`, and the mood reads back as given |
| `JournalEntries.MoodRoundTrip` | GratitudeClone/Models/JournalEntry.swift:19-25 | set-then-get returns the mood; a missing or unrecognised raw value reads as none |
| `JournalEntries.NewEntryDefaults` | GratitudeClone/Models/JournalEntry.swift:27-41 | by default: empty text, no mood, no prompt; `JournalEntry(mood: m).mood == m` |
| `Storage.NullifyPrompt` | GratitudeClone/Models/DailyPrompt.swift:17-18 | deleting a prompt clears every link to it, removes no entry and changes nothing else |
| `Storage.Store.DeletePrompt` | GratitudeClone/Models/DailyPrompt.swift:17-18 | the prompt goes, and the entries are nullified as above |
| `Storage.RemoveEntries` | GratitudeClone/ViewModels/JournalViewModel.swift:85 | deleting entries by id keeps exactly the other entries, in order |
| `Storage.RemoveEntriesTwice` | GratitudeClone/ViewModels/JournalViewModel.swift:83-86 | deleting one set of entries and then another is deleting both |
| `Storage.FetchEntriesNewestFirst` | GratitudeClone/ViewModels/JournalViewModel.swift:69-73 | the fetch is a permutation of the stored entries sorted by descending `createdAt` |
| `Storage.FetchPromptsByText` | GratitudeClone/Services/PromptService.swift:62-67 | the fetch is a permutation of the stored prompts sorted by text |
| `Storage.TextOrderIsTotalPreorder` | GratitudeClone/Services/PromptService.swift:65 | the text order is total and transitive |
| `JournalQueries.HasActiveFiltersIff` | GratitudeClone/ViewModels/JournalViewModel.swift:57-59 | no filter is active iff the search text is empty and neither category nor mood is set |
| `JournalQueries.LinkedPrompt` | GratitudeClone/ViewModels/JournalViewModel.swift:24 | following `entry.prompt` yields a stored prompt with that id, or none |
| `JournalQueries.FilteredEntriesIsOneFilter` | GratitudeClone/ViewModels/JournalViewModel.swift:18-37 | the three conditional filters in a row equal one filter by the conjunction of the set tests |
| `JournalQueries.FilteredEntriesSpec` | GratitudeClone/ViewModels/JournalViewModel.swift:18-37 | the result is an order-preserving subsequence; it holds an entry iff the entry passes every set filter; with no filter it is all entries |
| `JournalQueries.PromptlessEntries` | GratitudeClone/ViewModels/JournalViewModel.swift:21-30 | an entry without a prompt matches the search only by its content and never passes a category filter |
| `JournalQueries.MoodFilterExact` | GratitudeClone/ViewModels/JournalViewModel.swift:32-34 | with a mood set, a passing entry has exactly that mood; a mood-less entry never passes |
| `JournalQueries.NewestTime` | GratitudeClone/ViewModels/JournalViewModel.swift:100 | the newest creation time: no entry is newer, and some entry has it |
| `JournalQueries.StreakUnique` | GratitudeClone/ViewModels/JournalViewModel.swift:97-122 | the streak specification admits one number at most |
| `JournalQueries.NewestDayIsLatest` | GratitudeClone/ViewModels/JournalViewModel.swift:100-104 | the newest entry's day has an entry, and no entry's day is later |
| `JournalQueries.StreakDependsOnlyOnDays` | GratitudeClone/ViewModels/JournalViewModel.swift:112-119 | the streak depends only on the set of days that have entries |
| `JournalQueries.SameDayDuplicate` | GratitudeClone/ViewModels/JournalViewModel.swift:112-119 | another entry on a day that already has one neither adds to nor breaks the streak |
| `JournalQueries.StreakOfThreeDays` | GratitudeClone/ViewModels/JournalViewModel.swift:112-119 | for any `now`, entries at `now`, one day back and two days back make a streak of 3 |
| `JournalQueries.StreakEndingYesterday` | GratitudeClone/ViewModels/JournalViewModel.swift:104-110 | with no entry today, the run may end yesterday |
| `JournalQueries.StreakBrokenByGap` | GratitudeClone/ViewModels/JournalViewModel.swift:104-108 | when the newest entry is two days old, the streak is 0 |
| `JournalQueries.StreakTwoEntriesToday` | GratitudeClone/ViewModels/JournalViewModel.swift:113-118 | two entries today and none yesterday make a streak of 1 |
| `JournalQueries.WalkBack` | GratitudeClone/ViewModels/JournalViewModel.swift:112-119 | the cursor loop over the newest-first entries counts a run of consecutive entry days ending at the start day, the day before the run has no entry, and the count is at most the number of entries |
| `JournalQueries.CalculateStreak` | GratitudeClone/ViewModels/JournalViewModel.swift:97-122 | the walk returns the streak: 0 without entries or when the newest is neither today nor yesterday, otherwise the length of the run of consecutive days with entries ending at the newest day; never more than the number of entries |
| `JournalGroups.MonthKeys` | GratitudeClone/ViewModels/JournalViewModel.swift:40-42 | the dictionary keys: every entry's month, only those months, each once |
| `JournalGroups.GroupByMonth` | GratitudeClone/ViewModels/JournalViewModel.swift:40-42 | one group per key, holding the entries of that month in their filtered order |
| `JournalGroups.OrderedGroups` | GratitudeClone/ViewModels/JournalViewModel.swift:44-45 | the groups reordered, sorted by their first entry's time, newest first |
| `JournalGroups.GroupOrderIsTotalPreorder` | GratitudeClone/ViewModels/JournalViewModel.swift:45 | the group order is total and transitive |
| `JournalGroups.GroupedEntries` | GratitudeClone/ViewModels/JournalViewModel.swift:39-47 | one section per month group, none empty |
| `JournalGroups.DictionaryGroup` | GratitudeClone/ViewModels/JournalViewModel.swift:40-42 | every group's key is a month of the entries, and it holds exactly that month's entries, at least one |
| `JournalGroups.DictionaryKeysUnique` | GratitudeClone/ViewModels/JournalViewModel.swift:40-42 | no two groups share a month |
| `JournalGroups.GroupedEntriesSections` | GratitudeClone/ViewModels/JournalViewModel.swift:39-47 | each section is non-empty, holds exactly its month's filtered entries (as a multiset), all of that month, sorted newest first |
| `JournalGroups.GroupedEntriesDistinctMonths` | GratitudeClone/ViewModels/JournalViewModel.swift:39-47 | sections have pairwise distinct months |
| `JournalGroups.GroupedEntriesCover` | GratitudeClone/ViewModels/JournalViewModel.swift:39-47 | every filtered entry is in exactly one section, the one of its month |
| `JournalGroups.SectionOfEntry` | GratitudeClone/ViewModels/JournalViewModel.swift:39-47 | a filtered entry lies in the section of its month |
| `JournalGroups.SectionOfEntryUnique` | GratitudeClone/ViewModels/JournalViewModel.swift:39-47 | no entry lies in two different sections |
| `JournalGroups.GroupedEntriesNewestFirst` | GratitudeClone/ViewModels/JournalViewModel.swift:44-46 | for newest-first input, sections come in strictly descending order of their newest entry |
| `JournalViewModels.IdsAt` | GratitudeClone/ViewModels/JournalViewModel.swift:83-84 | the ids of the entries at the given section offsets |
| `JournalViewModels.FetchedSectionsNewestFirst` | GratitudeClone/ViewModels/JournalViewModel.swift:69-71 | after a fetch, the filtered entries are newest first, and so are the sections |
| `JournalViewModels.JournalViewModel.Filtered` | GratitudeClone/ViewModels/JournalViewModel.swift:18-37 | `filteredEntries` of the view model's state: an order-preserving subsequence holding exactly the passing entries |
| `JournalViewModels.JournalViewModel.Grouped` | GratitudeClone/ViewModels/JournalViewModel.swift:39-47 | `groupedEntries` of the view model's state; no section is empty |
| `JournalViewModels.JournalViewModel.CurrentStreak` | GratitudeClone/ViewModels/JournalViewModel.swift:53-55 | `currentStreak` is the streak of the loaded entries |
| `JournalViewModels.JournalViewModel.Configure` | GratitudeClone/ViewModels/JournalViewModel.swift:61-64 | attaches the store and loads its entries newest first |
| `JournalViewModels.JournalViewModel.FetchEntries` | GratitudeClone/ViewModels/JournalViewModel.swift:66-74 | reloads the stored entries newest first; no-op without a store |
| `JournalViewModels.JournalViewModel.DeleteEntry` | GratitudeClone/ViewModels/JournalViewModel.swift:76-80 | removes exactly that entry from the store, then refetches |
| `JournalViewModels.JournalViewModel.DeleteEntries` | GratitudeClone/ViewModels/JournalViewModel.swift:82-89 | removes exactly the entries at the offsets of the section and nothing else; prompts untouched; `totalEntries` equals the refetched count |
| `JournalViewModels.JournalViewModel.ClearFilters` | GratitudeClone/ViewModels/JournalViewModel.swift:91-95 | all three filters are reset and `hasActiveFilters` is false |
| `JournalViewModels.ClearedFiltersShowAll` | GratitudeClone/ViewModels/JournalViewModel.swift:91-95 | with cleared filters the filtered entries are all entries |
| `PromptServices.RecentlyUsedPromptIds` | GratitudeClone/Services/PromptService.swift:69-81 | exactly the prompt ids linked from entries created in the last seven days |
| `PromptServices.OldEntriesDoNotCount` | GratitudeClone/Services/PromptService.swift:72-74 | an entry created before the window does not change the recent set |
| `PromptServices.Candidates` | GratitudeClone/Services/PromptService.swift:50-55 | sorted by text; the non-recent prompts when there are any, otherwise all prompts; empty iff there are no prompts |
| `PromptServices.TodaysPromptExists` | GratitudeClone/Services/PromptService.swift:46-59 | today's prompt is none iff nothing is stored, and otherwise a stored prompt |
| `PromptServices.TodaysPromptAvoidsRecent` | GratitudeClone/Services/PromptService.swift:50-55 | when some prompt is not recently used, today's prompt is such a prompt |
| `PromptServices.TodaysPromptFallback` | GratitudeClone/Services/PromptService.swift:55-59 | when every prompt is recently used, today's prompt is entry `dayOfYear % count` of all prompts by text |
| `PromptServices.TodaysPromptDeterministic` | GratitudeClone/Services/PromptService.swift:57-59 | the same day of the year and the same recently used set give the same prompt |
| `PromptServices.MissingItems` | GratitudeClone/Services/PromptService.swift:36-37 | the catalog items whose text is not already stored |
| `PromptServices.Texts` | GratitudeClone/Services/PromptService.swift:34 | the set of stored texts |
| `PromptServices.SyncTwiceAddsNothing` | GratitudeClone/Services/PromptService.swift:30-44 | after one merge every catalog text is stored, so a second merge of the same catalog inserts nothing |
| `PromptServices.DuplicateCatalogTextsBothInserted` | GratitudeClone/Services/PromptService.swift:34-41 | two catalog items with the same new text are both inserted, because the existing texts are read once |
| `PromptServices.MarkUsed` | GratitudeClone/Services/PromptService.swift:83-86 | only that prompt's `lastUsedDate` becomes `now`; all other fields and prompts are unchanged |
| `PromptServices.MarkUsedKeepsTexts` | GratitudeClone/Services/PromptService.swift:83-86 | marking a prompt used keeps the stored texts |
| `PromptServices.TwoPromptsLeaveOne` | GratitudeClone/Services/PromptService.swift:90-92 | with unique ids, excluding one prompt from two or more leaves at least one |
| `PromptServices.PromptService.AllPrompts` | GratitudeClone/Services/PromptService.swift:62-67 | `fetchAllPrompts`: the stored prompts sorted by text; none without a store |
| `PromptServices.PromptService.GetTodaysPrompt` | GratitudeClone/Services/PromptService.swift:46-60 | none iff no prompt is stored; otherwise a stored prompt |
| `PromptServices.PromptService.Configure` | GratitudeClone/Services/PromptService.swift:14-28 | attaches the store, keeps the old catalog when the bundle file fails to load, then merges |
| `PromptServices.PromptService.Sync` | GratitudeClone/Services/PromptService.swift:30-44 | existing prompts stay as they were; one new prompt per catalog item with an absent text is appended, in catalog order |
| `PromptServices.MergeItem` | GratitudeClone/Services/PromptService.swift:36-41 | one loop pass: a catalog item whose text is absent from the existing texts is appended as a new prompt, any other item changes nothing; entries untouched |
| `PromptServices.PromptService.MarkPromptAsUsed` | GratitudeClone/Services/PromptService.swift:83-86 | the stored prompts become `MarkUsed` of the old ones; entries untouched |
| `PromptServices.PromptService.GetRandomPrompt` | GratitudeClone/Services/PromptService.swift:88-94 | with no prompt none, with one prompt that one (even if excluded), with more a stored prompt whose id differs from the excluded one |
| `HomeViewModels.GreetingByHour` | GratitudeClone/ViewModels/HomeViewModel.swift:18-28 | "Bonjour" exactly for hours 5-11, "Bon après-midi" exactly for 12-17, "Bonsoir" exactly otherwise |
| `HomeViewModels.TodaysEntry` | GratitudeClone/ViewModels/HomeViewModel.swift:45-61 | today's entry, when there is one, is a stored entry |
| `HomeViewModels.TodaysEntrySpec` | GratitudeClone/ViewModels/HomeViewModel.swift:45-61 | none iff no entry was created today; otherwise an entry created today that is newer than or as new as every other one created today |
| `HomeViewModels.Edited` | GratitudeClone/ViewModels/HomeViewModel.swift:81-83 | saving sets content, mood and `updatedAt`, and keeps id, `createdAt` and prompt |
| `HomeViewModels.SaveIntoSpec` | GratitudeClone/ViewModels/HomeViewModel.swift:78-86 | saving edits exactly the entry with that id, leaves all others, and keeps ids unique |
| `HomeViewModels.SaveIntoIdempotent` | GratitudeClone/ViewModels/HomeViewModel.swift:78-86 | saving the same text and mood twice at one moment is saving once |
| `HomeViewModels.HomeViewModel.Configure` | GratitudeClone/ViewModels/HomeViewModel.swift:34-38 | attaches store and service, then loads today's prompt and entry; `hasWrittenToday` iff some entry was created today |
| `HomeViewModels.HomeViewModel.LoadTodaysData` | GratitudeClone/ViewModels/HomeViewModel.swift:40-43 | today's prompt from the service, today's entry from the store; `hasWrittenToday` iff some stored entry was created today |
| `HomeViewModels.HomeViewModel.CreateOrEditEntry` | GratitudeClone/ViewModels/HomeViewModel.swift:63-76 | with no entry for today: appends exactly one new entry linked to today's prompt, marks that prompt used, and remembers the entry; with one: changes no record; in both cases opens the editor, so repeated calls create at most one entry |
| `HomeViewModels.HomeViewModel.SaveEntry` | GratitudeClone/ViewModels/HomeViewModel.swift:78-86 | no-op without today's entry; otherwise the stored entries become `SaveInto` of the old ones, prompts untouched |
| `HomeViewModels.HomeViewModel.RefreshData` | GratitudeClone/ViewModels/HomeViewModel.swift:88-90 | reloads as `loadTodaysData` does |
| `HomeViewModels.HomeViewModel.ChangePrompt` | GratitudeClone/ViewModels/HomeViewModel.swift:92-95 | keeps the prompt when the service returns none; otherwise takes the service's pick: the only prompt, or a stored one different from the current one |
| `Preferences.ThemeFromRawValue` | GratitudeClone/Services/UserDefaultsService.swift:71 | a decoded theme has the decoded string as its raw value |
| `Preferences.ThemeRawValueRoundTrip` | GratitudeClone/Services/UserDefaultsService.swift:71-74 | every theme's raw value decodes to it; any other string decodes to none |
| `Preferences.ColorSchemeNoneIffSystem` | GratitudeClone/Services/UserDefaultsService.swift:84-90 | the colour scheme is none exactly for `.system`, and distinct themes give distinct schemes |
| `Preferences.ThemeMappingsInjective` | GratitudeClone/Services/UserDefaultsService.swift:71-82 | the three themes have distinct raw values and labels, and all are listed |
| `Preferences.LoadedFromEmpty` | GratitudeClone/Services/UserDefaultsService.swift:53-68 | an empty store reads as disabled, hour 20, minute 0 and the system theme |
| `Preferences.LoadedHourSpec` | GratitudeClone/Services/UserDefaultsService.swift:57-58 | the hour read differs from the stored one only when that is 0 without the flag, and then it is 20; with the flag it is the stored hour |
| `Preferences.UnrecognisedThemeIsSystem` | GratitudeClone/Services/UserDefaultsService.swift:62-67 | a stored theme string that names no theme reads as `.system` |
| `Preferences.EnabledRoundTrip` | GratitudeClone/Services/UserDefaultsService.swift:20-22 | a fresh init reads back the enabled flag written, and the other preferences as before |
| `Preferences.HourRoundTrip` | GratitudeClone/Services/UserDefaultsService.swift:24-29 | a fresh init reads back the hour written, 0 included, and the other preferences as before |
| `Preferences.MidnightNeedsFlag` | GratitudeClone/Services/UserDefaultsService.swift:58 | a stored 0 without the flag reads as 20; with the flag it reads as 0 |
| `Preferences.MinuteRoundTrip` | GratitudeClone/Services/UserDefaultsService.swift:31-33 | a fresh init reads back the minute written, and the other preferences as before |
| `Preferences.ThemeRoundTrip` | GratitudeClone/Services/UserDefaultsService.swift:35-37 | a fresh init reads back the theme written, and the other preferences as before |
| `Preferences.UserDefaultsService.constructor` | GratitudeClone/Services/UserDefaultsService.swift:53-68 | every preference is what the store holds for it, with the defaults above |
| `Preferences.UserDefaultsService.SetNotificationEnabled` | GratitudeClone/Services/UserDefaultsService.swift:20-22 | writes the flag to its key; every preference still equals what a fresh init would read |
| `Preferences.UserDefaultsService.SetNotificationHour` | GratitudeClone/Services/UserDefaultsService.swift:24-29 | writes the hour and sets "notificationHourSet"; the invariant is kept |
| `Preferences.UserDefaultsService.SetNotificationMinute` | GratitudeClone/Services/UserDefaultsService.swift:31-33 | writes the minute to its key; the invariant is kept |
| `Preferences.UserDefaultsService.SetSelectedTheme` | GratitudeClone/Services/UserDefaultsService.swift:35-37 | writes the theme's raw value to its key; the invariant is kept |
| `Preferences.UserDefaultsService.NotificationTime` | GratitudeClone/Services/UserDefaultsService.swift:40-45 | for an in-range stored hour and minute, the time reads back that hour and minute |
| `Preferences.UserDefaultsService.SetNotificationTimeComponents` | GratitudeClone/Services/UserDefaultsService.swift:46-50 | stores the hour and minute components, 20 and 0 when missing |
| `Preferences.UserDefaultsService.SetNotificationTime` | GratitudeClone/Services/UserDefaultsService.swift:46-50 | stores the hour and minute of the given time; the getter reads them back |
| `Notifications.NotificationService.RequestAuthorization` | GratitudeClone/Services/NotificationService.swift:22-33 | the answer becomes `isAuthorized` and is returned; a failed request changes nothing and returns false |
| `Notifications.NotificationService.CheckAuthorizationStatus` | GratitudeClone/Services/NotificationService.swift:35-40 | `isAuthorized` becomes whether the status is authorised |
| `Notifications.NotificationService.ScheduleDailyReminder` | GratitudeClone/Services/NotificationService.swift:42-68 | afterwards the one pending reminder is at that hour and minute, and the badge is cleared |
| `Notifications.NotificationService.CancelAllNotifications` | GratitudeClone/Services/NotificationService.swift:70-73 | no reminder is pending and the badge is 0 |
| `Notifications.NotificationService.ClearBadge` | GratitudeClone/Services/NotificationService.swift:75-81 | the badge is 0 and nothing else changes |
| `Settings.ReminderPolicySpec` | GratitudeClone/ViewModels/SettingsViewModel.swift:59-70 | a reminder is scheduled iff enabled and authorised, and then at the stored hour and minute |
| `Settings.SettingsViewModel.constructor` | GratitudeClone/ViewModels/SettingsViewModel.swift:37-39 | before `configure`, `isNotificationAuthorized` is false |
| `Settings.SettingsViewModel.UpdateNotifications` | GratitudeClone/ViewModels/SettingsViewModel.swift:59-70 | with both services, the pending reminder is the policy's decision and the badge is 0; without either, nothing happens |
| `Settings.SettingsViewModel.SetNotificationEnabled` | GratitudeClone/ViewModels/SettingsViewModel.swift:13-20 | writes the same value to the defaults service, then applies the policy |
| `Settings.SettingsViewModel.SetNotificationTime` | GratitudeClone/ViewModels/SettingsViewModel.swift:22-29 | writes the time's hour and minute to the defaults service, then applies the policy |
| `Settings.SettingsViewModel.SetSelectedTheme` | GratitudeClone/ViewModels/SettingsViewModel.swift:31-35 | writes the theme through; the reminder is not touched |
| `Settings.SettingsViewModel.Configure` | GratitudeClone/ViewModels/SettingsViewModel.swift:41-48 | copies enabled, time and theme from the defaults service, writes them back through the setters, applies the policy; `isNotificationAuthorized` mirrors the service |
| `Settings.SettingsViewModel.RequestNotificationPermission` | GratitudeClone/ViewModels/SettingsViewModel.swift:50-57 | when granted, reminders are enabled, the flag is written to the defaults with the hour, minute and theme kept, and the policy is applied; when refused or failed, only the authorisation flag changes: the enabled flag, the defaults, the pending reminder and the badge stay as they were |
| `MoodPicker.ToggledSpec` | GratitudeClone/Views/Entry/MoodPickerView.swift:23-29 | tapping the selected mood clears it, tapping another selects it; afterwards the selection is none or the tapped mood |
| `MoodPicker.ToggledTwice` | GratitudeClone/Views/Entry/MoodPickerView.swift:24-27 | from no selection, or from the tapped mood, two taps come back to it |
| `MoodPicker.AtMostOneSelected` | GratitudeClone/Views/Entry/MoodPickerView.swift:18-21 | at most one mood button is selected, and a selected mood has its button |
| `MoodPicker.MoodSelection.Tap` | GratitudeClone/Views/Entry/MoodPickerView.swift:23-29 | the tap handler leaves the selection toggled as above |

## Left out

- SwiftUI rendering, navigation and styling are not modelled. From `MoodPickerView` only the toggle rule is kept.
- SwiftData is not modelled: `FetchDescriptor`, `#Predicate`, `ModelContainer` and `try? save()`. The store is an in-memory collection whose saves always succeed, and a failed fetch (`?? []`) is not modelled.
- JSON decoding of `prompts.json` is not modelled. The decoded catalog is a parameter of `PromptService.Configure`, none when the file is missing or malformed.
- The real `Calendar` and `DateFormatter` are not modelled. Time zones, daylight saving, locales, month names and `.capitalized` are out. Every day has 86400 seconds, and `monthYearFormatted` is the (year, month) pair.
- The fallbacks `?? self`, `?? 1`, `?? 0` and `?? Date()` of the date helpers never fire, because the calendar computations always succeed here.
- `localizedCaseInsensitiveContains` is a parameter, so case and locale folding are not modelled.
- The prompt text sort is code-point order, not the locale's collation.
- `randomElement()` is an unspecified choice, not a pseudo-random generator.
- `Task {}`, `async` and `MainActor` are not modelled. Each policy update is the next step of the setter that starts it. Races, such as two entries created on the same day from two screens, are out of scope.
- The notification centre is not modelled beyond its state: the authorisation flag, one pending reminder and the badge. Adding the request and setting the badge always succeed, and the notification's texts and sound are not modelled.
- The typed readers of `UserDefaults` are simplified: a string does not read as a boolean or a number, and a number does not read as a string. The app only writes each key with one type.
- `lastUsedDate` is written by `markPromptAsUsed` but nothing reads it; the recent-use window comes from entry links.
- `GratitudeCloneApp.swift` (container set-up, `fatalError`, environment injection) is not part of this model. The one thing taken from it is that the home screen and the prompt service share one store.
- HomeViewModels.HomeViewModel.Configure: requires the prompt service to work on the same store as the view model, as the app sets them up; the source accepts any two contexts.
- JournalViewModels.JournalViewModel.DeleteEntries: requires every offset to lie inside the section; the source traps on an offset out of range.
- JournalViewModels.JournalViewModel: its `entries` are a snapshot of the stored records, taken by `FetchEntries`. In the app they are the store's live objects, so an edit made elsewhere, such as `saveEntry` on the home screen, shows at once in `filteredEntries`, `groupedEntries` and `currentStreak`. The model shows such an edit only after the next fetch.
- Storage.FetchEntriesNewestFirst: sorts stably, so entries created at the same moment keep their store order. SwiftData leaves the order of equal keys unspecified.
- Storage.FetchPromptsByText: sorts stably, so prompts with the same text keep their store order, while SwiftData leaves it unspecified. A merge can store two prompts with the same text. The app's `dayOfYear % count` pick may then return either one, but the model, and so `PromptServices.TodaysPromptDeterministic`, returns the one stored first.
- Settings.SettingsViewModel.Configure: promises the stored hour and minute are unchanged only when they lie in 0..23 and 0..59. Outside that range the calendar's lenient arithmetic carries over, and the write-back stores the normalised values.

## Notes on the code

- The streak counts from the newest entry's day. When the newest entry lies in the future, it is neither today nor yesterday, so the streak is 0.
- The merge reads the stored texts once, before its loop. A catalog with the same new text twice gets two prompts with that text on the first merge (`PromptServices.DuplicateCatalogTextsBothInserted`).
- `configure` of the settings screen assigns the three properties, so their observers write the values back. Writing the hour back also sets "notificationHourSet", and a stored 0 without the flag then reads as 20 (see `Preferences.MidnightNeedsFlag`).
- `Date` has fractions of a second, and `endOfDay` is the start of the day plus 86399 seconds. The test `createdAt <= endOfDay` therefore misses an entry created in the last second before midnight. `hasWrittenToday` then stays false, and `createOrEditEntry` can add a second entry for that day. Timestamps here are whole seconds, so that window is empty, and `HomeViewModels.TodaysEntrySpec` (none exactly when no entry was created today) holds only for whole-second times.
- When notifications are not authorised, `requestNotificationPermission` changes nothing beyond the authorisation flag: a reminder scheduled earlier stays pending until the next policy run.
