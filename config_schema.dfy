/**
 * The application configuration table (src/server/src/modules/config/model.js):
 * a single row with a theme, a colour mode and a title, each with its
 * default. The two enumerations are datatypes; their wire names are the
 * strings the table and the API use.
 */
module ConfigSchema {
  import opened Wrappers

  datatype Theme = Technical | JiraLike

  datatype Mode = Light | Dark | Auto

  const AppTitleMax: nat := 128
  const DefaultTitle: string := "Project-Tracker"

  /** The row (its primary key is the map key of the table). */
  datatype Config = Config(theme: Theme, mode: Mode, appTitle: string)

  /** The column defaults: `technical`, `auto`, `Project-Tracker`. */
  const Default: Config := Config(Technical, Auto, DefaultTitle)

  function ThemeName(t: Theme): string {
    match t
    case Technical => "technical"
    case JiraLike => "jira-like"
  }

  function ModeName(m: Mode): string {
    match m
    case Light => "light"
    case Dark => "dark"
    case Auto => "auto"
  }

  /** The `ENUM("technical", "jira-like")` domain: the theme a string names, if any. */
  function ThemeOf(s: string): (t: Option<Theme>)
    ensures t.Some? <==> s == "technical" || s == "jira-like"
    ensures t.Some? ==> ThemeName(t.value) == s
  {
    if s == "technical" then Some(Technical)
    else if s == "jira-like" then Some(JiraLike)
    else None
  }

  /** The `ENUM("light", "dark", "auto")` domain: the mode a string names, if any. */
  function ModeOf(s: string): (m: Option<Mode>)
    ensures m.Some? <==> s == "light" || s == "dark" || s == "auto"
    ensures m.Some? ==> ModeName(m.value) == s
  {
    if s == "light" then Some(Light)
    else if s == "dark" then Some(Dark)
    else if s == "auto" then Some(Auto)
    else None
  }

  /** Every theme's name reads back as that theme. */
  lemma ThemeNamesRoundTrip(t: Theme)
    ensures ThemeOf(ThemeName(t)) == Some(t)
  {
    match t
    case Technical =>
    case JiraLike => assert ThemeName(t) != "technical";
  }

  /** Every mode's name reads back as that mode. */
  lemma ModeNamesRoundTrip(m: Mode)
    ensures ModeOf(ModeName(m)) == Some(m)
  {
    match m
    case Light =>
    case Dark => assert ModeName(m) != "light";
    case Auto => assert ModeName(m) != "light" && ModeName(m) != "dark";
  }

  /** `appTitle`: `STRING(128)`, `allowNull: false`. */
  predicate Fits(c: Config) {
    |c.appTitle| <= AppTitleMax
  }
}
