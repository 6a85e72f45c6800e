/** The static tables: the nine paper themes and the six preset covers. */
module Constants {
  import opened Wrappers
  import opened Types

  const THEMES: seq<ThemeConfig> := [
    ThemeConfig(Classic, "Classic Paper", "bg-[#fdfcf0]", "text-gray-800", "rgba(0,0,0,0.1)",
      "font-serif-zh", "blue-500",
      Some("https://www.transparenttextures.com/patterns/natural-paper.png"), Some(0.15)),
    ThemeConfig(Vintage, "Vintage Parchment", "bg-[#e7d9b9]", "text-amber-950", "rgba(120,60,0,0.15)",
      "font-handwriting", "amber-700",
      Some("https://www.transparenttextures.com/patterns/parchment.png"), Some(0.2)),
    ThemeConfig(Leather, "Rustic Leather", "bg-[#3d2b1f]", "text-amber-100", "rgba(255,255,255,0.05)",
      "font-serif-zh", "amber-500",
      Some("https://www.transparenttextures.com/patterns/leather.png"), Some(0.3)),
    ThemeConfig(Recycled, "Recycled Fiber", "bg-[#d2ccc4]", "text-slate-800", "rgba(0,0,0,0.1)",
      "font-sans", "green-700",
      Some("https://www.transparenttextures.com/patterns/recycled-paper-texture.png"), Some(0.4)),
    ThemeConfig(Linen, "Soft Linen", "bg-[#f4f1ea]", "text-slate-700", "rgba(0,0,0,0.05)",
      "font-sans", "slate-500",
      Some("https://www.transparenttextures.com/patterns/linen.png"), Some(0.2)),
    ThemeConfig(Slate, "Industrial Slate", "bg-[#2c3e50]", "text-slate-100", "rgba(255,255,255,0.05)",
      "font-sans", "blue-300",
      Some("https://www.transparenttextures.com/patterns/dark-matter.png"), Some(0.2)),
    ThemeConfig(Minimal, "Clean Slate", "bg-white", "text-slate-900", "rgba(0,0,0,0.05)",
      "font-sans", "gray-800",
      None, None),
    ThemeConfig(Night, "Starry Night", "bg-slate-900", "text-slate-200", "rgba(255,255,255,0.08)",
      "font-serif-zh", "indigo-400",
      Some("https://www.transparenttextures.com/patterns/stardust.png"), Some(0.1)),
    ThemeConfig(Floral, "Floral Garden", "bg-rose-50", "text-rose-900", "rgba(255,100,100,0.1)",
      "font-sketch", "rose-400",
      Some("https://www.transparenttextures.com/patterns/fancy-flower.png"), Some(0.1))
  ]

  const PRESET_COVERS: seq<CoverPreset> := [
    CoverPreset("c1", "https://images.unsplash.com/photo-1441974231531-c6227db76b6e?auto=format&fit=crop&q=80&w=1000", "Forest Mist"),
    CoverPreset("c2", "https://images.unsplash.com/photo-1473580044384-7ba9967e16a0?auto=format&fit=crop&q=80&w=1000", "Desert Sands"),
    CoverPreset("c3", "https://images.unsplash.com/photo-1505118380757-91f5f45d8de4?auto=format&fit=crop&q=80&w=1000", "Ocean Calm"),
    CoverPreset("c4", "https://images.unsplash.com/photo-1419242902214-272b3f66ee7a?auto=format&fit=crop&q=80&w=1000", "Starry Sky"),
    CoverPreset("c5", "https://images.unsplash.com/photo-1522441815192-d9f04eb0615c?auto=format&fit=crop&q=80&w=1000", "Soft Linen"),
    CoverPreset("c6", "https://images.unsplash.com/photo-1522383225653-ed111181a951?auto=format&fit=crop&q=80&w=1000", "Cherry Blossom")
  ]

  /** The position of a theme's configuration in `THEMES`: every theme has one. */
  function ThemeIndex(t: JournalTheme): (i: nat)
    ensures i < |THEMES| && THEMES[i].id == t
  {
    match t
    case Classic => 0
    case Vintage => 1
    case Leather => 2
    case Recycled => 3
    case Linen => 4
    case Slate => 5
    case Minimal => 6
    case Night => 7
    case Floral => 8
  }

  /** Nine configurations, no two for the same theme, the first for the
      default theme `classic`. */
  lemma ThemesShape()
    ensures |THEMES| == 9
    ensures forall i, j :: 0 <= i < j < |THEMES| ==> THEMES[i].id != THEMES[j].id
    ensures THEMES[0].id == Classic
  {
  }

  /** Each theme has exactly one configuration. */
  lemma ThemesOnePerTheme(t: JournalTheme, i: int)
    requires 0 <= i < |THEMES| && THEMES[i].id == t
    ensures i == ThemeIndex(t)
  {
  }

  /** Every theme but `minimal` has a non-empty texture overlay url and a
      non-zero opacity for it; `minimal` has neither. */
  lemma ThemeTextures()
    ensures forall i :: 0 <= i < |THEMES| ==>
      (THEMES[i].textureOverlay.Some? <==> THEMES[i].id != Minimal) &&
      (THEMES[i].textureOpacity.Some? <==> THEMES[i].id != Minimal)
    ensures forall i :: 0 <= i < |THEMES| && THEMES[i].textureOverlay.Some? ==>
      THEMES[i].textureOverlay.value != ""
    ensures forall i :: 0 <= i < |THEMES| && THEMES[i].textureOpacity.Some? ==>
      THEMES[i].textureOpacity.value != 0.0
  {
  }

  /** Six covers with the distinct ids `c1` to `c6`, each with a name and a url. */
  lemma CoversShape()
    ensures |PRESET_COVERS| == 6
    ensures forall i :: 0 <= i < 6 ==> PRESET_COVERS[i].id == ['c', "123456"[i]]
    ensures forall i, j :: 0 <= i < j < |PRESET_COVERS| ==> PRESET_COVERS[i].id != PRESET_COVERS[j].id
    ensures forall i :: 0 <= i < |PRESET_COVERS| ==>
      PRESET_COVERS[i].name != "" && PRESET_COVERS[i].url != ""
  {
  }
}
