/** The records of the diary: entries, partial updates of entries, theme
    configurations and cover presets. */
module Types {
  import opened Wrappers

  /** The nine paper styles; a closed set of identifiers. */
  datatype JournalTheme =
    | Classic | Vintage | Minimal | Night | Floral | Leather | Recycled | Linen | Slate

  /** A user-chosen mood. `NoMood` stands for the JavaScript `null` the type
      also admits; a missing `mood` property is `None` at the entry. */
  datatype UserMood = Happy | Neutral | Sad | NoMood

  /** One diary record. Optional properties are `Option`s; `None` means the
      property is absent. */
  datatype JournalEntry = JournalEntry(
    id: string,
    title: string,
    content: string,
    timestamp: string,
    date: string,
    theme: JournalTheme,
    coverImage: Option<string>,
    mood: Option<UserMood>,
    aiMood: Option<string>,
    aiSummary: Option<string>)

  /** The names of the entry's properties. */
  datatype Field =
    | IdField | TitleField | ContentField | TimestampField | DateField
    | ThemeField | CoverImageField | MoodField | AiMoodField | AiSummaryField

  /** `Partial<JournalEntry>`: each property is either not mentioned (`None`)
      or mentioned with the value it is to take. */
  datatype Partial = Partial(
    id: Option<string>,
    title: Option<string>,
    content: Option<string>,
    timestamp: Option<string>,
    date: Option<string>,
    theme: Option<JournalTheme>,
    coverImage: Option<string>,
    mood: Option<UserMood>,
    aiMood: Option<string>,
    aiSummary: Option<string>)

  /** The update that mentions nothing, `{}`. */
  const NoChanges := Partial(None, None, None, None, None, None, None, None, None, None)

  /** The properties an update mentions. */
  function Mentioned(u: Partial): set<Field>
  {
    (if u.id.Some? then {IdField} else {}) +
    (if u.title.Some? then {TitleField} else {}) +
    (if u.content.Some? then {ContentField} else {}) +
    (if u.timestamp.Some? then {TimestampField} else {}) +
    (if u.date.Some? then {DateField} else {}) +
    (if u.theme.Some? then {ThemeField} else {}) +
    (if u.coverImage.Some? then {CoverImageField} else {}) +
    (if u.mood.Some? then {MoodField} else {}) +
    (if u.aiMood.Some? then {AiMoodField} else {}) +
    (if u.aiSummary.Some? then {AiSummaryField} else {})
  }

  /** `a` and `b` agree on every property that `u` does not mention. */
  predicate AgreeOutside(a: JournalEntry, b: JournalEntry, u: Partial)
  {
    && (u.id.None? ==> a.id == b.id)
    && (u.title.None? ==> a.title == b.title)
    && (u.content.None? ==> a.content == b.content)
    && (u.timestamp.None? ==> a.timestamp == b.timestamp)
    && (u.date.None? ==> a.date == b.date)
    && (u.theme.None? ==> a.theme == b.theme)
    && (u.coverImage.None? ==> a.coverImage == b.coverImage)
    && (u.mood.None? ==> a.mood == b.mood)
    && (u.aiMood.None? ==> a.aiMood == b.aiMood)
    && (u.aiSummary.None? ==> a.aiSummary == b.aiSummary)
  }

  /** Every property `u` mentions has, in `e`, the value `u` gives it. */
  predicate Carries(e: JournalEntry, u: Partial)
  {
    && (u.id.Some? ==> e.id == u.id.value)
    && (u.title.Some? ==> e.title == u.title.value)
    && (u.content.Some? ==> e.content == u.content.value)
    && (u.timestamp.Some? ==> e.timestamp == u.timestamp.value)
    && (u.date.Some? ==> e.date == u.date.value)
    && (u.theme.Some? ==> e.theme == u.theme.value)
    && (u.coverImage.Some? ==> e.coverImage == u.coverImage)
    && (u.mood.Some? ==> e.mood == u.mood)
    && (u.aiMood.Some? ==> e.aiMood == u.aiMood)
    && (u.aiSummary.Some? ==> e.aiSummary == u.aiSummary)
  }

  /** The object spread `{ ...e, ...u }`: the mentioned properties take their
      new values and nothing else changes. */
  function Merge(e: JournalEntry, u: Partial): (r: JournalEntry)
    ensures Carries(r, u)
    ensures AgreeOutside(e, r, u)
  {
    JournalEntry(
      u.id.GetOr(e.id),
      u.title.GetOr(e.title),
      u.content.GetOr(e.content),
      u.timestamp.GetOr(e.timestamp),
      u.date.GetOr(e.date),
      u.theme.GetOr(e.theme),
      if u.coverImage.Some? then u.coverImage else e.coverImage,
      if u.mood.Some? then u.mood else e.mood,
      if u.aiMood.Some? then u.aiMood else e.aiMood,
      if u.aiSummary.Some? then u.aiSummary else e.aiSummary)
  }

  /** Spreading `{}` changes nothing. */
  lemma MergeNothing(e: JournalEntry)
    ensures Merge(e, NoChanges) == e
  {
  }

  /** Spreading the same update twice is spreading it once. */
  lemma MergeIdempotent(e: JournalEntry, u: Partial)
    ensures Merge(Merge(e, u), u) == Merge(e, u)
  {
  }

  /** `{ ...u1, ...u2 }`: the later update wins where both mention a property. */
  function Combine(u1: Partial, u2: Partial): Partial
  {
    Partial(
      if u2.id.Some? then u2.id else u1.id,
      if u2.title.Some? then u2.title else u1.title,
      if u2.content.Some? then u2.content else u1.content,
      if u2.timestamp.Some? then u2.timestamp else u1.timestamp,
      if u2.date.Some? then u2.date else u1.date,
      if u2.theme.Some? then u2.theme else u1.theme,
      if u2.coverImage.Some? then u2.coverImage else u1.coverImage,
      if u2.mood.Some? then u2.mood else u1.mood,
      if u2.aiMood.Some? then u2.aiMood else u1.aiMood,
      if u2.aiSummary.Some? then u2.aiSummary else u1.aiSummary)
  }

  /** Two successive updates of an entry are one combined update. */
  lemma MergeTwice(e: JournalEntry, u1: Partial, u2: Partial)
    ensures Merge(Merge(e, u1), u2) == Merge(e, Combine(u1, u2))
  {
  }

  /** A theme's display configuration. The texture overlay and its opacity
      are optional. */
  datatype ThemeConfig = ThemeConfig(
    id: JournalTheme,
    name: string,
    paperBg: string,
    textColor: string,
    lineColor: string,
    fontClass: string,
    accentColor: string,
    textureOverlay: Option<string>,
    textureOpacity: Option<real>)

  /** A preset cover image; every property is required. */
  datatype CoverPreset = CoverPreset(id: string, url: string, name: string)
}
