/** The entry list beside the editor: the search filter, this month's mood
    statistics and what each list row displays. */
module Sidebar {
  import opened Wrappers
  import opened Types
  import opened JsArray
  import opened JsString
  import JournalEditor

  /** Whether an entry matches the search box, case-insensitively, in its
      title or its content. */
  predicate MatchesSearch(e: JournalEntry, term: string)
  {
    Contains(Lower(e.title), Lower(term)) || Contains(Lower(e.content), Lower(term))
  }

  /** `filteredEntries`. */
  function FilteredEntries(entries: seq<JournalEntry>, term: string): (r: seq<JournalEntry>)
    ensures SubsequenceOf(r, entries) && |r| <= |entries|
    ensures forall e :: e in r <==> e in entries && MatchesSearch(e, term)
  {
    Filter(entries, (e: JournalEntry) => MatchesSearch(e, term))
  }

  /** The search keeps a matching entry as often as the list holds it. */
  lemma SearchMultiplicity(entries: seq<JournalEntry>, term: string)
    ensures forall e ::
      multiset(FilteredEntries(entries, term))[e] == if MatchesSearch(e, term) then multiset(entries)[e] else 0
  {
    FilterMultiplicity(entries, (e: JournalEntry) => MatchesSearch(e, term));
  }

  /** An empty search keeps every entry, in order. */
  lemma EmptySearchKeepsAll(entries: seq<JournalEntry>)
    ensures FilteredEntries(entries, "") == entries
  {
  }

  /** The search does not care about the case of the term. */
  lemma SearchIgnoresTermCase(e: JournalEntry, term: string)
    ensures MatchesSearch(e, term) <==> MatchesSearch(e, Lower(term))
  {
    LowerIdempotent(term);
  }

  /** An entry whose title is the search term (in any case) is always found. */
  lemma TitleFindsEntry(entries: seq<JournalEntry>, e: JournalEntry)
    requires e in entries
    ensures e in FilteredEntries(entries, e.title)
  {
  }

  /** The statistics panel. The month's name is locale text and is not modelled. */
  datatype Stats = Stats(total: nat, happy: nat, neutral: nat, sad: nat)

  /** Whether an entry falls in the current month and year. `inCurrentMonth`
      stands for `new Date(d).getMonth()/getFullYear()` compared with now; an
      empty date is replaced by `Date.now()`, which is always this month. */
  predicate InCurrentMonth(e: JournalEntry, inCurrentMonth: string -> bool)
  {
    e.date == "" || inCurrentMonth(e.date)
  }

  predicate IsHappy(e: JournalEntry) { e.mood == Some(Happy) }
  predicate IsNeutral(e: JournalEntry) { e.mood == Some(Neutral) }
  predicate IsSad(e: JournalEntry) { e.mood == Some(Sad) }
  /** A mood that is `null` or absent. */
  predicate IsUnmooded(e: JournalEntry) { e.mood == None || e.mood == Some(NoMood) }

  /** This month's entries. */
  function MonthEntries(entries: seq<JournalEntry>, inCurrentMonth: string -> bool)
    : (r: seq<JournalEntry>)
    ensures SubsequenceOf(r, entries)
    ensures forall e :: e in r <==> e in entries && InCurrentMonth(e, inCurrentMonth)
  {
    Filter(entries, (e: JournalEntry) => InCurrentMonth(e, inCurrentMonth))
  }

  /** `stats`: this month's total and per-mood counts. */
  function MonthStats(entries: seq<JournalEntry>, inCurrentMonth: string -> bool): (s: Stats)
    ensures s.total == |MonthEntries(entries, inCurrentMonth)| <= |entries|
    ensures s.happy == |Filter(MonthEntries(entries, inCurrentMonth), IsHappy)|
    ensures s.neutral == |Filter(MonthEntries(entries, inCurrentMonth), IsNeutral)|
    ensures s.sad == |Filter(MonthEntries(entries, inCurrentMonth), IsSad)|
    ensures s.happy + s.neutral + s.sad <= s.total
    ensures s.total == s.happy + s.neutral + s.sad + Count(MonthEntries(entries, inCurrentMonth), IsUnmooded)
  {
    var month := MonthEntries(entries, inCurrentMonth);
    MoodsPartition(month);
    CountIsFilterLength(month, IsHappy);
    CountIsFilterLength(month, IsNeutral);
    CountIsFilterLength(month, IsSad);
    Stats(|month|, Count(month, IsHappy), Count(month, IsNeutral), Count(month, IsSad))
  }

  /** Every entry has exactly one of the four moods happy, neutral, sad, or none. */
  lemma {:induction false} MoodsPartition(s: seq<JournalEntry>)
    ensures Count(s, IsHappy) + Count(s, IsNeutral) + Count(s, IsSad) + Count(s, IsUnmooded) == |s|
  {
    if s != [] {
      MoodsPartition(s[1..]);
      var e := s[0];
      match e.mood {
        case None =>
        case Some(m) => assert m.Happy? || m.Neutral? || m.Sad? || m.NoMood?;
      }
      assert Count(s, IsHappy) == (if IsHappy(e) then 1 else 0) + Count(s[1..], IsHappy);
      assert Count(s, IsNeutral) == (if IsNeutral(e) then 1 else 0) + Count(s[1..], IsNeutral);
      assert Count(s, IsSad) == (if IsSad(e) then 1 else 0) + Count(s[1..], IsSad);
      assert Count(s, IsUnmooded) == (if IsUnmooded(e) then 1 else 0) + Count(s[1..], IsUnmooded);
    }
  }

  /** Entries outside this month, or without a mood, change no mood count. */
  lemma {:induction false} CountsIgnoreOthers(entries: seq<JournalEntry>, e: JournalEntry,
                                              inCurrentMonth: string -> bool)
    requires !InCurrentMonth(e, inCurrentMonth) || IsUnmooded(e)
    ensures var s, t := MonthStats(entries, inCurrentMonth), MonthStats([e] + entries, inCurrentMonth);
      s.happy == t.happy && s.neutral == t.neutral && s.sad == t.sad
  {
  }

  /** The row's mood icon: 😊 for happy, 😔 for sad, 😐 for anything else. */
  function MoodIcon(mood: Option<UserMood>): (icon: string)
    ensures icon == JournalEditor.CurrentMood(mood).emoji
  {
    if mood == Some(Happy) then "😊" else if mood == Some(Sad) then "😔" else "😐"
  }

  /** What a row shows in place of an empty title. */
  const UntitledTitle := "Untitled Entry"

  /** What a row shows in place of empty content. */
  const EmptyPreview := "Start writing..."

  /** `text || placeholder`, as the row's title (`UntitledTitle`) and its
      preview (`EmptyPreview`) are written: the text itself unless it is
      empty. */
  function OrPlaceholder(text: string, placeholder: string): (shown: string)
    requires placeholder != ""
    ensures shown != ""
    ensures text != "" ==> shown == text
    ensures text == "" ==> shown == placeholder
  {
    if text == "" then placeholder else text
  }

  /** The title a list row shows for an entry. */
  function RowTitle(e: JournalEntry): string
  {
    OrPlaceholder(e.title, UntitledTitle)
  }

  /** The preview line a list row shows for an entry. */
  function RowPreview(e: JournalEntry): string
  {
    OrPlaceholder(e.content, EmptyPreview)
  }

  /** A row never shows a blank title or preview: it shows the entry's own
      text, or "Untitled Entry" and "Start writing..." in place of empty text. */
  lemma RowsNeverBlank(e: JournalEntry)
    ensures RowTitle(e) != "" && RowPreview(e) != ""
    ensures RowTitle(e) == (if e.title == "" then "Untitled Entry" else e.title)
    ensures RowPreview(e) == (if e.content == "" then "Start writing..." else e.content)
  {
  }

  /** `activeEntry?.id || ''`, the id the list is told is active. */
  function ActiveId(active: Option<JournalEntry>): string
  {
    if active.Some? then active.value.id else ""
  }

  /** A row is highlighted when its id is the active id. */
  predicate IsHighlighted(e: JournalEntry, activeId: string)
  {
    e.id == activeId
  }
}
