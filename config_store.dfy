/**
 * The configuration routes (src/server/src/modules/config/routes.js):
 * `row()` finds the row with id 1 or creates it with the defaults, GET
 * answers that row, and PUT overwrites each field with the request's value
 * when that value is valid for the field, keeping the stored one otherwise.
 * The table is a map from id to row; the routes only ever touch id 1.
 */
module ConfigStore {
  import opened Wrappers
  import opened Text
  import opened Js
  import opened ConfigSchema

  /** The id of the single row. */
  const RowId: nat := 1

  /** The fields `theme`, `mode` and `appTitle` of a PUT body, as JSON values. */
  datatype ConfigBody = ConfigBody(theme: Value, mode: Value, appTitle: Value)

  /** What PUT answers: the updated row, or a database error it does not catch. */
  datatype PutReply = Updated(config: Config) | Unhandled

  /**
   * `["technical", "jira-like"].includes(theme) ? theme : cfg.theme`: the
   * theme changes only to the one the request names, and a request naming a
   * theme always gets it.
   */
  function NewTheme(current: Theme, v: Value): (t: Theme)
    ensures t == current || v == Str(ThemeName(t))
    ensures forall x :: v == Str(ThemeName(x)) ==> t == x
    ensures v.Str? && ThemeOf(v.s).Some? ==> t == ThemeOf(v.s).value
    ensures !(v.Str? && ThemeOf(v.s).Some?) ==> t == current
  {
    if v.Str? && ThemeOf(v.s).Some? then
      assert forall x :: v == Str(ThemeName(x)) ==> x == ThemeOf(v.s).value by {
        forall x | v == Str(ThemeName(x)) ensures x == ThemeOf(v.s).value { ThemeNamesRoundTrip(x); }
      }
      ThemeOf(v.s).value
    else
      assert forall x :: v != Str(ThemeName(x)) by {
        forall x ensures v != Str(ThemeName(x)) { ThemeNamesRoundTrip(x); }
      }
      current
  }

  /** `["light", "dark", "auto"].includes(mode) ? mode : cfg.mode`: the same rule for the mode. */
  function NewMode(current: Mode, v: Value): (m: Mode)
    ensures m == current || v == Str(ModeName(m))
    ensures forall x :: v == Str(ModeName(x)) ==> m == x
    ensures v.Str? && ModeOf(v.s).Some? ==> m == ModeOf(v.s).value
    ensures !(v.Str? && ModeOf(v.s).Some?) ==> m == current
  {
    if v.Str? && ModeOf(v.s).Some? then
      assert forall x :: v == Str(ModeName(x)) ==> x == ModeOf(v.s).value by {
        forall x | v == Str(ModeName(x)) ensures x == ModeOf(v.s).value { ModeNamesRoundTrip(x); }
      }
      ModeOf(v.s).value
    else
      assert forall x :: v != Str(ModeName(x)) by {
        forall x ensures v != Str(ModeName(x)) { ModeNamesRoundTrip(x); }
      }
      current
  }

  /** A title the route accepts: a string whose trim is not empty. */
  predicate TitleGiven(v: Value) {
    v.Str? && Trim(v.s) != ""
  }

  /**
   * `typeof appTitle === "string" && appTitle.trim() ? appTitle.trim() : cfg.appTitle`:
   * a new title is stored trimmed and never empty, so a title with no
   * surrounding white space stays so, and a non-blank one stays non-blank.
   */
  function NewTitle(current: string, v: Value): (s: string)
    ensures s == current || (s != [] && Trim(s) == s)
    ensures !IsBlank(current) ==> !IsBlank(s)
    ensures TitleGiven(v) ==> s == Trim(v.s)
    ensures !TitleGiven(v) ==> s == current
  {
    if TitleGiven(v) then
      TrimIdempotent(v.s);
      Trim(v.s)
    else current
  }

  /** The row `cfg.update(...)` writes. */
  function ApplyPut(c: Config, b: ConfigBody): Config {
    Config(NewTheme(c.theme, b.theme), NewMode(c.mode, b.mode), NewTitle(c.appTitle, b.appTitle))
  }

  /** The row `row()` hands over for a table: the stored one, or the defaults it creates. */
  function Current(rows: map<nat, Config>): Config {
    if RowId in rows then rows[RowId] else Default
  }

  class ConfigTable {
    var rows: map<nat, Config>

    /** The table holds at most the row with id 1, which fits its columns and has a title. */
    predicate Valid()
      reads this
    {
      && rows.Keys <= {RowId}
      && (RowId in rows ==> Fits(rows[RowId]) && rows[RowId].appTitle != "")
    }

    constructor ()
      ensures Valid() && rows == map[]
    {
      rows := map[];
    }

    /** `row()`: the row with id 1, created with the defaults when missing. */
    method Row() returns (c: Config)
      requires Valid()
      modifies this
      ensures Valid()
      ensures RowId in rows && c == rows[RowId]
      ensures RowId in old(rows) ==> rows == old(rows)
      ensures RowId !in old(rows) ==> rows == old(rows)[RowId := Default] && c == Default
    {
      if RowId in rows {
        c := rows[RowId];
      } else {
        c := Default;
        rows := rows[RowId := c];
      }
    }

    /** `GET /api/config`. */
    method Get() returns (c: Config)
      requires Valid()
      modifies this
      ensures Valid()
      ensures RowId in rows && c == rows[RowId]
      ensures RowId in old(rows) ==> rows == old(rows) && c == old(rows)[RowId]
      ensures RowId !in old(rows) ==> rows == old(rows)[RowId := Default]
    {
      c := Row();
    }

    /**
     * `PUT /api/config`. The row is created first if missing; a title longer
     * than the column is refused by the database after that, leaving the
     * (possibly new) row as it was.
     */
    method Put(b: ConfigBody) returns (r: PutReply)
      requires Valid()
      modifies this
      ensures Valid()
      ensures Fits(ApplyPut(Current(old(rows)), b)) ==>
        r == Updated(ApplyPut(Current(old(rows)), b)) && rows == old(rows)[RowId := ApplyPut(Current(old(rows)), b)]
      ensures !Fits(ApplyPut(Current(old(rows)), b)) ==>
        r == Unhandled && rows == old(rows)[RowId := Current(old(rows))]
    {
      ghost var start := rows;
      var cfg := Row();
      assert rows == start[RowId := cfg];
      assert cfg == Current(start);
      var next := ApplyPut(cfg, b);
      if !Fits(next) {
        return Unhandled;
      }
      TitleNeverEmpty(cfg, b);
      Overwrite(start, cfg, next);
      rows := rows[RowId := next];
      r := Updated(next);
    }
  }

  // ------------------------------------------------------------------ lemmas

  /** Storing the row a second time replaces the first store. */
  lemma Overwrite(rows: map<nat, Config>, first: Config, second: Config)
    ensures rows[RowId := first][RowId := second] == rows[RowId := second]
  {
  }

  /**
   * Each field is decided by the stored field and the request's field alone:
   * an invalid value for one field never blocks a valid value for another.
   */
  lemma FieldsIndependent(c1: Config, c2: Config, b1: ConfigBody, b2: ConfigBody)
    ensures c1.theme == c2.theme && b1.theme == b2.theme ==> ApplyPut(c1, b1).theme == ApplyPut(c2, b2).theme
    ensures c1.mode == c2.mode && b1.mode == b2.mode ==> ApplyPut(c1, b1).mode == ApplyPut(c2, b2).mode
    ensures c1.appTitle == c2.appTitle && b1.appTitle == b2.appTitle ==> ApplyPut(c1, b1).appTitle == ApplyPut(c2, b2).appTitle
  {
  }

  /** The theme becomes the requested one exactly when the request names a theme; the same for the mode. */
  lemma EnumFieldsIff(c: Config, b: ConfigBody)
    ensures ApplyPut(c, b).theme != c.theme ==> b.theme == Str(ThemeName(ApplyPut(c, b).theme))
    ensures (exists t :: b.theme == Str(ThemeName(t))) ==> b.theme == Str(ThemeName(ApplyPut(c, b).theme))
    ensures ApplyPut(c, b).mode != c.mode ==> b.mode == Str(ModeName(ApplyPut(c, b).mode))
    ensures (exists m :: b.mode == Str(ModeName(m))) ==> b.mode == Str(ModeName(ApplyPut(c, b).mode))
  {
    if exists t :: b.theme == Str(ThemeName(t)) {
      var t :| b.theme == Str(ThemeName(t));
      ThemeNamesRoundTrip(t);
    }
    if exists m :: b.mode == Str(ModeName(m)) {
      var m :| b.mode == Str(ModeName(m));
      ModeNamesRoundTrip(m);
    }
  }

  /** A stored title stays non-empty. */
  lemma TitleNeverEmpty(c: Config, b: ConfigBody)
    requires c.appTitle != ""
    ensures ApplyPut(c, b).appTitle != ""
  {
  }

  /** The stored title is never blank, whatever the request. */
  lemma TitleNeverBlank(c: Config, b: ConfigBody)
    requires !IsBlank(c.appTitle)
    ensures !IsBlank(ApplyPut(c, b).appTitle)
  {
    if TitleGiven(b.appTitle) {
      TrimIdempotent(b.appTitle.s);
    }
  }

  /** Applying the same PUT twice is applying it once. */
  lemma PutIdempotent(c: Config, b: ConfigBody)
    ensures ApplyPut(ApplyPut(c, b), b) == ApplyPut(c, b)
  {
  }

  /** A PUT carrying the row's own values leaves the row as it is. */
  lemma PutOwnValues(c: Config)
    requires Trim(c.appTitle) == c.appTitle && c.appTitle != ""
    ensures ApplyPut(c, ConfigBody(Str(ThemeName(c.theme)), Str(ModeName(c.mode)), Str(c.appTitle))) == c
  {
    ThemeNamesRoundTrip(c.theme);
    ModeNamesRoundTrip(c.mode);
  }
}
