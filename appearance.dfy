/**
 * The appearance settings page (client/src/pages/appearance.tsx): a colour scheme of nine named
 * colours edited one at a time, overwritten three at a time by a preset, or reset to its
 * defaults; and a set of logos, one for the company, one for the dashboard and one per
 * manufacturer. Each update is a state updater that spreads the previous record, so it is a
 * function from the old record to the new one.
 */
module Appearance {
  import opened Wrappers

  /** The keys of `ColorScheme`. */
  datatype ColorKey =
    Primary | Secondary | Accent | Background | Surface | Text | Success | Warning | Error

  datatype ColorScheme = ColorScheme(
    primary: string,
    secondary: string,
    accent: string,
    background: string,
    surface: string,
    text: string,
    success: string,
    warning: string,
    error: string)

  /** `scheme[key]`. */
  function Get(s: ColorScheme, key: ColorKey): string {
    match key
    case Primary => s.primary
    case Secondary => s.secondary
    case Accent => s.accent
    case Background => s.background
    case Surface => s.surface
    case Text => s.text
    case Success => s.success
    case Warning => s.warning
    case Error => s.error
  }

  /** The scheme the page starts with. */
  function InitialScheme(): ColorScheme {
    ColorScheme(
      primary := "#0f766e",
      secondary := "#64748b",
      accent := "#BF9231",
      background := "#f8fafc",
      surface := "#ffffff",
      text := "#1e293b",
      success := "#059669",
      warning := "#d97706",
      error := "#dc2626")
  }

  /** `handleColorChange`: `{ ...prev, [colorKey]: value }`. */
  function WithColor(s: ColorScheme, key: ColorKey, value: string): ColorScheme {
    match key
    case Primary => s.(primary := value)
    case Secondary => s.(secondary := value)
    case Accent => s.(accent := value)
    case Background => s.(background := value)
    case Surface => s.(surface := value)
    case Text => s.(text := value)
    case Success => s.(success := value)
    case Warning => s.(warning := value)
    case Error => s.(error := value)
  }

  /** A colour change sets exactly the chosen key and leaves the other eight as they were. */
  lemma WithColorChangesOnlyKey(s: ColorScheme, key: ColorKey, value: string)
    ensures Get(WithColor(s, key, value), key) == value
    ensures forall k :: k != key ==> Get(WithColor(s, key, value), k) == Get(s, k)
  {
  }

  /** A second change of the same key overrides the first; setting a key to its value is a no-op. */
  lemma WithColorOverwrite(s: ColorScheme, key: ColorKey, v1: string, v2: string)
    ensures WithColor(WithColor(s, key, v1), key, v2) == WithColor(s, key, v2)
    ensures WithColor(s, key, Get(s, key)) == s
  {
  }

  /** One entry of `presetColors`: the three colours a preset sets. */
  datatype Preset = Preset(primary: string, secondary: string, accent: string)

  /** `presetColors`, keyed by display name. */
  function Presets(): map<string, Preset> {
    map[
      "الأزرق الكلاسيكي" := Preset("#1e40af", "#64748b", "#3b82f6"),
      "الأخضر الزمردي" := Preset("#047857", "#6b7280", "#10b981"),
      "البرتقالي الدافئ" := Preset("#ea580c", "#71717a", "#f97316"),
      "البنفسجي الأنيق" := Preset("#7c3aed", "#64748b", "#8b5cf6"),
      "الذهبي الفاخر" := Preset("#BF9231", "#00627F", "#d97706")
    ]
  }

  /** `applyPresetColors`: `{ ...prev, ...preset }`. */
  function ApplyPreset(s: ColorScheme, p: Preset): ColorScheme {
    s.(primary := p.primary, secondary := p.secondary, accent := p.accent)
  }

  /**
   * A preset overwrites primary, secondary and accent with its own colours and leaves the six
   * other colours unchanged; applying it again changes nothing more, and a later preset
   * completely replaces an earlier one.
   */
  lemma ApplyPresetEffect(s: ColorScheme, p: Preset, q: Preset)
    ensures var r := ApplyPreset(s, p);
      Get(r, Primary) == p.primary && Get(r, Secondary) == p.secondary && Get(r, Accent) == p.accent &&
      forall k :: k !in {Primary, Secondary, Accent} ==> Get(r, k) == Get(s, k)
    ensures ApplyPreset(ApplyPreset(s, p), p) == ApplyPreset(s, p)
    ensures ApplyPreset(ApplyPreset(s, p), q) == ApplyPreset(s, q)
  {
  }

  /** `resetToDefault`'s own literal. */
  function ResetScheme(): ColorScheme {
    ColorScheme(
      primary := "#0f766e",
      secondary := "#64748b",
      accent := "#BF9231",
      background := "#f8fafc",
      surface := "#ffffff",
      text := "#1e293b",
      success := "#059669",
      warning := "#d97706",
      error := "#dc2626")
  }

  /** Resetting yields the scheme the page started with, colour by colour. */
  lemma ResetIsInitial()
    ensures ResetScheme() == InitialScheme()
    ensures forall k :: Get(ResetScheme(), k) == Get(InitialScheme(), k)
  {
  }

  datatype LogoSettings = LogoSettings(
    company: Option<string>,
    dashboard: Option<string>,
    manufacturers: map<string, string>)

  /** The logo state the page starts with: no company or dashboard logo, an empty one per maker. */
  function InitialLogos(): LogoSettings {
    LogoSettings(None, None, map[
      "مرسيدس" := "", "بي ام دبليو" := "", "رولز رويز" := "", "بنتلي" := "",
      "رنج روفر" := "", "دفندر" := "", "بورش" := "", "لكزس" := "", "لينكون" := "",
      "شوفولية" := "", "تويوتا" := "", "تسلا" := "", "لوسيد" := ""])
  }

  /**
   * The `reader.onload` branch of `handleLogoUpload`: the data URL read from the file becomes
   * the company or the dashboard logo for those two types, and otherwise the logo of the
   * manufacturer named by the type.
   */
  function WithLogo(l: LogoSettings, kind: string, dataUrl: string): LogoSettings {
    if kind == "company" then l.(company := Some(dataUrl))
    else if kind == "dashboard" then l.(dashboard := Some(dataUrl))
    else l.(manufacturers := l.manufacturers[kind := dataUrl])
  }

  /**
   * The company and dashboard types set only their own field. Any other type sets only that
   * manufacturer's entry and keeps every other manufacturer's logo; so a manufacturer named
   * "company" or "dashboard" is never given a logo of its own.
   */
  lemma WithLogoTargets(l: LogoSettings, kind: string, dataUrl: string)
    ensures kind == "company" ==>
      WithLogo(l, kind, dataUrl) == l.(company := Some(dataUrl))
    ensures kind == "dashboard" ==>
      WithLogo(l, kind, dataUrl) == l.(dashboard := Some(dataUrl))
    ensures kind != "company" && kind != "dashboard" ==>
      var r := WithLogo(l, kind, dataUrl);
      r.company == l.company && r.dashboard == l.dashboard &&
      r.manufacturers.Keys == l.manufacturers.Keys + {kind} && r.manufacturers[kind] == dataUrl &&
      forall m :: m in l.manufacturers && m != kind ==> r.manufacturers[m] == l.manufacturers[m]
    ensures kind in {"company", "dashboard"} ==>
      WithLogo(l, kind, dataUrl).manufacturers == l.manufacturers
  {
  }
}
