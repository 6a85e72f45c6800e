/** The editing surface's rules: which theme and mood it shows, which single
    property each interaction updates, and the small display predicates. */
module JournalEditor {
  import opened Wrappers
  import opened Types
  import opened Constants
  import opened JsArray
  import opened JsString

  /** One choice of the mood menu. `caption` is TypeScript's `label`
      property; `label` is reserved in Dafny. */
  datatype MoodOption = MoodOption(kind: UserMood, emoji: string, caption: string)

  const MOODS: seq<MoodOption> := [
    MoodOption(Happy, "😊", "Happy"),
    MoodOption(Neutral, "😐", "Neutral"),
    MoodOption(Sad, "😔", "Sad")
  ]

  /** `table.find(t => t.id === id) || table[0]` over any non-empty table:
      the first row with that id, or the first row when none has it. */
  function LookupThemeIn(table: seq<ThemeConfig>, id: JournalTheme): (c: ThemeConfig)
    requires |table| > 0
    ensures c in table
    ensures (exists i :: 0 <= i < |table| && table[i].id == id) ==>
      exists i :: 0 <= i < |table| && table[i] == c && c.id == id &&
        forall j :: 0 <= j < i ==> table[j].id != id
    ensures (forall i :: 0 <= i < |table| ==> table[i].id != id) ==> c == table[0]
  {
    match Find(table, (t: ThemeConfig) => t.id == id)
    case Some(t) => t
    case None => table[0]
  }

  /** The configuration the editor renders an entry with. */
  function ResolveTheme(id: JournalTheme): (c: ThemeConfig)
    ensures c == THEMES[ThemeIndex(id)]
    ensures c.id == id
  {
    ThemesShape();
    ThemesOnePerTheme(id, FindIndex(THEMES, (t: ThemeConfig) => t.id == id));
    LookupThemeIn(THEMES, id)
  }

  /** `MOODS.find(m => m.type === mood) || MOODS[1]`. */
  function CurrentMood(mood: Option<UserMood>): (m: MoodOption)
    ensures m in MOODS
    ensures mood.Some? && mood.value != NoMood ==> m.kind == mood.value
    ensures mood.None? || mood.value == NoMood ==> m == MOODS[1] && m.caption == "Neutral"
  {
    var matches := (m: MoodOption) => Some(m.kind) == mood;
    match Find(MOODS, matches)
    case Some(m) => m
    case None =>
      assert !matches(MOODS[0]) && !matches(MOODS[1]) && !matches(MOODS[2]);
      assert mood.Some? ==> mood.value.NoMood?;
      MOODS[1]
  }

  /** Typing in the text area: `{ content }`. */
  function ContentEdit(v: string): (u: Partial)
    ensures Mentioned(u) == {ContentField} && u.content == Some(v)
  {
    NoChanges.(content := Some(v))
  }

  /** Typing in the title field: `{ title }`. */
  function TitleEdit(v: string): (u: Partial)
    ensures Mentioned(u) == {TitleField} && u.title == Some(v)
  {
    NoChanges.(title := Some(v))
  }

  /** Picking a mood from the menu: `{ mood: m.type }`. */
  function MoodEdit(m: MoodOption): (u: Partial)
    ensures Mentioned(u) == {MoodField} && u.mood == Some(m.kind)
  {
    NoChanges.(mood := Some(m.kind))
  }

  /** Picking a cover (a preset's url, an uploaded image, or `''` to remove it):
      `{ coverImage: url }`. */
  function CoverEdit(url: string): (u: Partial)
    ensures Mentioned(u) == {CoverImageField} && u.coverImage == Some(url)
  {
    NoChanges.(coverImage := Some(url))
  }

  /** Each editor interaction changes exactly its own property of the entry. */
  lemma EditsChangeOneProperty(e: JournalEntry, v: string, m: MoodOption)
    ensures Merge(e, ContentEdit(v)) == e.(content := v)
    ensures Merge(e, TitleEdit(v)) == e.(title := v)
    ensures Merge(e, MoodEdit(m)) == e.(mood := Some(m.kind))
    ensures Merge(e, CoverEdit(v)) == e.(coverImage := Some(v))
  {
  }

  /** Choosing a mood from the menu makes the editor show that choice. */
  lemma MoodChoiceIsShown(e: JournalEntry, i: nat)
    requires i < |MOODS|
    ensures CurrentMood(Merge(e, MoodEdit(MOODS[i])).mood) == MOODS[i]
  {
  }

  /** The themes drawn on dark paper (stamp and mood button colours). */
  predicate IsDarkTheme(t: JournalTheme)
  {
    t == Night || t == Leather || t == Slate
  }

  /** Ruled lines are drawn unless the theme is minimal, night, slate or leather. */
  predicate HasRuledLines(t: JournalTheme)
  {
    t != Minimal && t != Night && t != Slate && t != Leather
  }

  /** Whether the editor draws ruled lines for an entry, from its resolved theme. */
  function ShowsRuledLines(e: JournalEntry): (b: bool)
    ensures b <==> e.theme in {Classic, Vintage, Floral, Recycled, Linen}
    ensures IsDarkTheme(e.theme) ==> !b
  {
    HasRuledLines(ResolveTheme(e.theme).id)
  }

  /** The texture layer's opacity, drawn only when the theme's overlay url is
      present and non-empty: `textureOpacity || 0.1`. */
  function OverlayOpacity(c: ThemeConfig): (o: Option<real>)
    ensures o.Some? <==> c.textureOverlay.Some? && c.textureOverlay.value != ""
    ensures o.Some? && c.textureOpacity.Some? && c.textureOpacity.value != 0.0 ==>
      o.value == c.textureOpacity.value
    ensures o.Some? && (c.textureOpacity.None? || c.textureOpacity.value == 0.0) ==> o.value == 0.1
  {
    if c.textureOverlay.None? || c.textureOverlay.value == "" then None
    else if c.textureOpacity.Some? && c.textureOpacity.value != 0.0 then c.textureOpacity
    else Some(0.1)
  }

  /** Every theme but `minimal` draws its texture with the opacity its table
      row gives; `minimal` draws none. */
  lemma TexturesUseTableOpacity(t: JournalTheme)
    ensures t == Minimal <==> OverlayOpacity(ResolveTheme(t)).None?
    ensures t != Minimal ==> OverlayOpacity(ResolveTheme(t)) == ResolveTheme(t).textureOpacity
  {
    ThemeTextures();
    ThemesShape();
    assert ResolveTheme(t) == THEMES[ThemeIndex(t)];
  }

  /** The AI badge shows when `aiMood` is non-empty. */
  predicate ShowsAIBadge(e: JournalEntry)
  {
    e.aiMood.Some? && e.aiMood.value != ""
  }

  /** The summary bubble shows inside the badge when `aiSummary` is non-empty too. */
  predicate ShowsAISummary(e: JournalEntry)
  {
    ShowsAIBadge(e) && e.aiSummary.Some? && e.aiSummary.value != ""
  }

  /** The stamp's upper line, `timestamp.split(',')[0]`: everything before the
      first comma. */
  function StampDate(timestamp: string): (d: string)
    ensures d <= timestamp && ',' !in d
    ensures |d| == |timestamp| || timestamp[|d|] == ','
  {
    SplitFirstPiece(timestamp, ',');
    Split(timestamp, ',')[0]
  }

  /** The stamp's lower line, `timestamp.split(',')[1]`: the piece between
      the first and the second comma, or nothing without a comma. */
  function StampTime(timestamp: string): (t: Option<string>)
    ensures t.Some? <==> ',' in timestamp
    ensures t.Some? ==> (',' !in t.value &&
      StampDate(timestamp) + [','] + t.value <= timestamp)
    ensures t.Some? ==> var k := |StampDate(timestamp)| + 1 + |t.value|;
      k == |timestamp| || timestamp[k] == ','
  {
    var parts := Split(timestamp, ',');
    SplitFirstPiece(timestamp, ',');
    if |parts| > 1 then
      JoinSplit(timestamp, ',');
      JoinPrefix(parts);
      Some(parts[1])
    else None
  }

  /** The first two pieces of a join with ',' and the comma between them
      begin the joined string. */
  lemma JoinPrefix(parts: seq<string>)
    requires |parts| > 1
    ensures parts[0] + [','] + parts[1] <= Join(parts, ',')
  {
    var rest := Join(parts[1..], ',');
    assert Join(parts, ',') == parts[0] + [','] + rest;
    assert parts[1] <= rest;
  }
}
