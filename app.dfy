/** The journal entry store: the ordered collection of entries, the copy of
    the active entry the editor works on, and the local-storage mirror of the
    collection. */
module App {
  import opened Wrappers
  import opened Types
  import opened JsArray
  import GeminiService
  import JournalEditor
  import Sidebar

  /** What local storage holds under `zendiary_entries` at start-up: nothing,
      or a text together with what `JSON.parse` makes of it (`None` when it
      throws). */
  datatype Saved = NothingSaved | SavedText(text: string, parsed: Option<seq<JournalEntry>>)

  /** The entry seeded when nothing is saved. */
  function WelcomeEntry(timestamp: string, date: string): JournalEntry
  {
    JournalEntry("1", "Welcome to ZenDiary", "Start writing your thoughts here...",
      timestamp, date, Classic, None, Some(Neutral), None, None)
  }

  /** The entry `createNewEntry` builds: empty, neutral, and in the active
      entry's theme (classic when nothing is active). */
  function NewEntry(id: string, timestamp: string, date: string, active: Option<JournalEntry>)
    : JournalEntry
  {
    JournalEntry(id, "", "", timestamp, date,
      if active.Some? then active.value.theme else Classic,
      None, Some(Neutral), None, None)
  }

  /** `entries.map(e => e.id === id ? { ...e, ...u } : e)`. */
  function UpdateAll(entries: seq<JournalEntry>, id: string, u: Partial): (r: seq<JournalEntry>)
    ensures |r| == |entries|
    ensures forall i :: 0 <= i < |entries| ==>
      r[i] == if entries[i].id == id then Merge(entries[i], u) else entries[i]
    ensures (forall e :: e in entries ==> e.id != id) ==> r == entries
  {
    if entries == [] then []
    else
      var e := entries[0];
      [if e.id == id then Merge(e, u) else e] + UpdateAll(entries[1..], id, u)
  }

  /** `entries.filter(e => e.id !== id)`. */
  function RemoveId(entries: seq<JournalEntry>, id: string): (r: seq<JournalEntry>)
    ensures SubsequenceOf(r, entries)
    ensures forall e :: e in r <==> e in entries && e.id != id
    ensures (forall e :: e in entries ==> e.id != id) ==> r == entries
  {
    Filter(entries, (e: JournalEntry) => e.id != id)
  }

  /** Deleting removes every copy of an entry with that id and keeps every
      other entry as often as the list held it. */
  lemma RemoveIdMultiplicity(entries: seq<JournalEntry>, id: string)
    ensures forall e :: multiset(RemoveId(entries, id))[e] == if e.id != id then multiset(entries)[e] else 0
  {
    FilterMultiplicity(entries, (e: JournalEntry) => e.id != id);
  }

  /** The active copy after `updateEntry(id, u)`: merged when it is the target. */
  function MergedActive(active: Option<JournalEntry>, id: string, u: Partial): Option<JournalEntry>
  {
    if active.Some? && active.value.id == id then Some(Merge(active.value, u)) else active
  }

  /** The active entry after `deleteEntry(id)`, given what remains. */
  function ActiveAfterDelete(active: Option<JournalEntry>, id: string, remaining: seq<JournalEntry>)
    : Option<JournalEntry>
  {
    if active.Some? && active.value.id == id then
      (if |remaining| > 0 then Some(remaining[0]) else None)
    else active
  }

  /** The store's invariant: the active entry is one of the entries, and there
      is none exactly when there are no entries. */
  predicate Consistent(entries: seq<JournalEntry>, active: Option<JournalEntry>)
  {
    (active.None? <==> entries == []) && (active.Some? ==> active.value in entries)
  }

  /** No two entries share an id. */
  predicate UniqueIds(entries: seq<JournalEntry>)
  {
    forall i, j :: 0 <= i < j < |entries| ==> entries[i].id != entries[j].id
  }

  /** No entry has the id `id`. */
  predicate IdUnused(entries: seq<JournalEntry>, id: string)
  {
    forall e :: e in entries ==> e.id != id
  }

  /** Updating keeps the invariant: the merged active copy is the merged entry. */
  lemma UpdateKeepsConsistent(entries: seq<JournalEntry>, active: Option<JournalEntry>, id: string, u: Partial)
    requires Consistent(entries, active)
    ensures Consistent(UpdateAll(entries, id, u), MergedActive(active, id, u))
  {
  }

  /** Deleting keeps the invariant. */
  lemma DeleteKeepsConsistent(entries: seq<JournalEntry>, active: Option<JournalEntry>, id: string)
    requires Consistent(entries, active)
    ensures var rest := RemoveId(entries, id); Consistent(rest, ActiveAfterDelete(active, id, rest))
  {
  }

  /** Updating an id no entry has changes neither the entries nor the active copy. */
  lemma UpdateAbsentId(entries: seq<JournalEntry>, active: Option<JournalEntry>, id: string, u: Partial)
    requires Consistent(entries, active) && IdUnused(entries, id)
    ensures UpdateAll(entries, id, u) == entries && MergedActive(active, id, u) == active
  {
  }

  /** Deleting an id no entry has changes neither the entries nor the active entry. */
  lemma DeleteAbsentId(entries: seq<JournalEntry>, active: Option<JournalEntry>, id: string)
    requires Consistent(entries, active) && IdUnused(entries, id)
    ensures RemoveId(entries, id) == entries && ActiveAfterDelete(active, id, entries) == active
  {
  }

  /** An update that does not mention `id` keeps the ids distinct. */
  lemma UpdateKeepsUniqueIds(entries: seq<JournalEntry>, id: string, u: Partial)
    requires UniqueIds(entries) && u.id.None?
    ensures UniqueIds(UpdateAll(entries, id, u))
  {
  }

  /** A subsequence of entries with distinct ids has distinct ids. */
  lemma {:induction false} SubsequenceKeepsUniqueIds(r: seq<JournalEntry>, s: seq<JournalEntry>)
    requires SubsequenceOf(r, s) && UniqueIds(s)
    ensures UniqueIds(r)
    decreases |s|
  {
    if r != [] {
      UniqueIdsTail(s);
      if r[0] == s[0] && SubsequenceOf(r[1..], s[1..]) {
        SubsequenceKeepsUniqueIds(r[1..], s[1..]);
        SubsequenceMembers(r[1..], s[1..]);
        forall j | 0 < j < |r| ensures r[0].id != r[j].id {
          assert r[j] == r[1..][j - 1];
          assert r[j] in s[1..];
          var k :| 0 <= k < |s[1..]| && s[1..][k] == r[j];
          assert s[k + 1] == r[j];
        }
      } else {
        SubsequenceKeepsUniqueIds(r, s[1..]);
      }
    }
  }

  /** Deleting keeps the ids distinct. */
  lemma DeleteKeepsUniqueIds(entries: seq<JournalEntry>, id: string)
    requires UniqueIds(entries)
    ensures UniqueIds(RemoveId(entries, id))
  {
    SubsequenceKeepsUniqueIds(RemoveId(entries, id), entries);
  }

  lemma UniqueIdsTail(s: seq<JournalEntry>)
    requires s != [] && UniqueIds(s)
    ensures UniqueIds(s[1..]) && IdUnused(s[1..], s[0].id)
  {
  }

  lemma RemoveIdCons(s: seq<JournalEntry>, id: string)
    requires s != []
    ensures RemoveId(s, id) == (if s[0].id != id then [s[0]] else []) + RemoveId(s[1..], id)
  {
  }

  /** With distinct ids, deleting an id that is present removes exactly one entry. */
  lemma {:induction false} DeleteRemovesOne(entries: seq<JournalEntry>, id: string)
    requires UniqueIds(entries) && !IdUnused(entries, id)
    ensures |RemoveId(entries, id)| == |entries| - 1
  {
    var tail := entries[1..];
    UniqueIdsTail(entries);
    RemoveIdCons(entries, id);
    if entries[0].id == id {
      assert RemoveId(tail, id) == tail;
    } else {
      var e :| e in entries && e.id == id;
      assert e in tail;
      DeleteRemovesOne(tail, id);
    }
  }

  /** Under the invariant, a listed entry is highlighted exactly when it has
      the active entry's id. */
  lemma HighlightIsActive(entries: seq<JournalEntry>, active: Option<JournalEntry>, e: JournalEntry)
    requires Consistent(entries, active) && e in entries
    ensures Sidebar.IsHighlighted(e, Sidebar.ActiveId(active)) <==> active.Some? && e.id == active.value.id
  {
  }

  /** The update `handleAIAnalysis` sends: `{ aiMood, aiSummary }`. */
  function InsightUpdate(r: GeminiService.Insight): (u: Partial)
    ensures Mentioned(u) == {AiMoodField, AiSummaryField}
    ensures u.aiMood == Some(r.mood) && u.aiSummary == Some(r.summary)
  {
    NoChanges.(aiMood := Some(r.mood), aiSummary := Some(r.summary))
  }

  /** The update the theme selector sends: `{ theme }`. */
  function ThemeUpdate(t: JournalTheme): (u: Partial)
    ensures Mentioned(u) == {ThemeField} && u.theme == Some(t)
  {
    NoChanges.(theme := Some(t))
  }

  /** A successful analysis, written back, always brings up the AI badge. */
  lemma AnalysisShowsBadge(apiKey: Option<string>, e: JournalEntry, reply: Option<GeminiService.Reply>)
    requires GeminiService.AnalyzeMoodAndSummary(apiKey, e.content, reply).Some?
    ensures var r := GeminiService.AnalyzeMoodAndSummary(apiKey, e.content, reply).value;
      JournalEditor.ShowsAIBadge(Merge(e, InsightUpdate(r)))
  {
  }

  /** After a successful analysis is written back, the summary bubble shows
      exactly when the service returned a non-empty summary. */
  lemma AnalysisShowsSummary(apiKey: Option<string>, e: JournalEntry, reply: Option<GeminiService.Reply>)
    requires GeminiService.AnalyzeMoodAndSummary(apiKey, e.content, reply).Some?
    ensures var r := GeminiService.AnalyzeMoodAndSummary(apiKey, e.content, reply).value;
      JournalEditor.ShowsAISummary(Merge(e, InsightUpdate(r))) <==> r.summary != ""
  {
  }

  class EntryStore {
    /** The collection, newest first. */
    var entries: seq<JournalEntry>
    /** The copy of the active entry, or `null`. */
    var active: Option<JournalEntry>
    /** What local storage holds under `zendiary_entries`. */
    var stored: seq<JournalEntry>

    ghost predicate Valid()
      reads this
    {
      stored == entries && Consistent(entries, active)
    }

    /** Mounting: the state starts empty, then the initial-load effect reads
        local storage, and the persistence effect writes the collection back. */
    constructor (saved: Saved, timestamp: string, date: string)
      ensures Valid()
      ensures saved.NothingSaved? || saved.text == "" ==>
        entries == [WelcomeEntry(timestamp, date)] && active == Some(WelcomeEntry(timestamp, date))
      ensures saved.SavedText? && saved.text != "" && saved.parsed.None? ==>
        entries == [] && active == None
      ensures saved.SavedText? && saved.text != "" && saved.parsed.Some? ==>
        entries == saved.parsed.value &&
        active == (if |entries| > 0 then Some(entries[0]) else None)
    {
      entries := [];
      active := None;
      stored := [];
      if saved.SavedText? && saved.text != "" {
        match saved.parsed {
          case Some(parsed) =>
            entries := parsed;
            if |parsed| > 0 {
              active := Some(parsed[0]);
            }
          case None =>
        }
      } else {
        var first := WelcomeEntry(timestamp, date);
        entries := [first];
        active := Some(first);
      }
      stored := entries;
    }

    /** The persistence effect: local storage gets the whole collection. */
    method Persist()
      modifies this
      ensures stored == entries
      ensures entries == old(entries) && active == old(active)
    {
      stored := entries;
    }

    /** `createNewEntry`, given the fresh id and the creation time's labels. */
    method Create(id: string, timestamp: string, date: string)
      requires Valid()
      modifies this
      ensures Valid()
      ensures var e := NewEntry(id, timestamp, date, old(active));
        entries == [e] + old(entries) && active == Some(e)
      ensures |entries| == |old(entries)| + 1
      ensures entries[0].title == "" && entries[0].content == "" && entries[0].mood == Some(Neutral)
      ensures entries[0].theme == if old(active).Some? then old(active).value.theme else Classic
      ensures UniqueIds(old(entries)) && IdUnused(old(entries), id) ==> UniqueIds(entries)
    {
      var e := NewEntry(id, timestamp, date, active);
      entries := [e] + entries;
      active := Some(e);
      Persist();
    }

    /** `updateEntry(id, u)`. */
    method Update(id: string, u: Partial)
      requires Valid()
      modifies this
      ensures Valid()
      ensures entries == UpdateAll(old(entries), id, u)
      ensures active == MergedActive(old(active), id, u)
      ensures UniqueIds(old(entries)) && u.id.None? ==> UniqueIds(entries)
    {
      UpdateKeepsConsistent(entries, active, id, u);
      if UniqueIds(entries) && u.id.None? {
        UpdateKeepsUniqueIds(entries, id, u);
      }
      entries := UpdateAll(entries, id, u);
      if active.Some? && active.value.id == id {
        active := Some(Merge(active.value, u));
      }
      Persist();
    }

    /** `deleteEntry(id)`. */
    method Delete(id: string)
      requires Valid()
      modifies this
      ensures Valid()
      ensures entries == RemoveId(old(entries), id)
      ensures active == ActiveAfterDelete(old(active), id, entries)
      ensures UniqueIds(old(entries)) ==> UniqueIds(entries)
    {
      DeleteKeepsConsistent(entries, active, id);
      if UniqueIds(entries) {
        DeleteKeepsUniqueIds(entries, id);
      }
      var updated := RemoveId(entries, id);
      entries := updated;
      if active.Some? && active.value.id == id {
        active := if |updated| > 0 then Some(updated[0]) else None;
      }
      Persist();
    }

    /** Selecting a row of the list (the list shows only entries of the collection). */
    method Select(e: JournalEntry)
      requires Valid() && e in entries
      modifies this
      ensures Valid()
      ensures active == Some(e)
      ensures entries == old(entries) && stored == old(stored)
    {
      active := Some(e);
    }

    /** The editor's `onUpdate`: the editor is shown only while an entry is active. */
    method EditActive(u: Partial)
      requires Valid() && active.Some?
      modifies this
      ensures Valid()
      ensures entries == UpdateAll(old(entries), old(active).value.id, u)
      ensures active == Some(Merge(old(active).value, u))
    {
      Update(active.value.id, u);
    }

    /** The theme selector's `onSelect`: a no-op while nothing is active. */
    method SelectTheme(t: JournalTheme)
      requires Valid()
      modifies this
      ensures Valid()
      ensures old(active).None? ==> entries == old(entries) && active == old(active)
      ensures old(active).Some? ==>
        entries == UpdateAll(old(entries), old(active).value.id, ThemeUpdate(t)) &&
        active == Some(old(active).value.(theme := t))
    {
      if active.Some? {
        Update(active.value.id, ThemeUpdate(t));
      }
    }

    /** `handleAIAnalysis`, as one step: `reply` is what the external call
        yields for the active entry's content. */
    method AnalyzeActive(apiKey: Option<string>, reply: Option<GeminiService.Reply>)
      requires Valid()
      modifies this
      ensures Valid()
      ensures old(active).None? ==> entries == old(entries) && active == old(active)
      ensures old(active).Some? ==>
        var r := GeminiService.AnalyzeMoodAndSummary(apiKey, old(active).value.content, reply);
        (r.None? ==> entries == old(entries) && active == old(active)) &&
        (r.Some? ==>
          entries == UpdateAll(old(entries), old(active).value.id, InsightUpdate(r.value)) &&
          active == Some(old(active).value.(aiMood := Some(r.value.mood), aiSummary := Some(r.value.summary))))
    {
      if active.Some? {
        var result := GeminiService.AnalyzeMoodAndSummary(apiKey, active.value.content, reply);
        if result.Some? {
          Update(active.value.id, InsightUpdate(result.value));
        }
      }
    }
  }
}
