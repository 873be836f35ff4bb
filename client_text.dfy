/**
 * Formatting rules the client components share: `s.trim() || null` on a
 * form field, the `—` placeholder for an empty cell, and the 60-character
 * preview of a long text (`TaskTable.jsx` notes, `WorkTable.jsx`
 * descriptions).
 */
module ClientText {
  import opened Wrappers
  import opened Text
  import opened Js

  const Dash: string := "—"
  const Ellipsis: string := "…"
  const PreviewLength: nat := 60

  /**
   * `s.trim() || null`: the trimmed text, or null when nothing is left. A
   * kept value is non-empty and neither starts nor ends with white space.
   */
  function TrimOrNull(s: string): (r: Option<string>)
    ensures r.None? <==> IsBlank(s)
    ensures r.Some? ==> r.value == Trim(s)
    ensures r.Some? ==> r.value != [] && !IsSpace(r.value[0]) && !IsSpace(r.value[|r.value| - 1])
  {
    if IsBlank(s) then None else Some(Trim(s))
  }

  /** A value that went through `TrimOrNull` goes through it unchanged a second time. */
  lemma TrimOrNullStable(s: string)
    ensures TrimOrNull(s).Some? ==> Trim(TrimOrNull(s).value) == TrimOrNull(s).value
    ensures TrimOrNull(s).Some? ==> TrimOrNull(TrimOrNull(s).value) == TrimOrNull(s)
  {
    TrimIdempotent(s);
  }

  /** `v || "—"` for a cell: a cell is never empty. */
  function OrDash(v: Option<string>): (r: string)
    ensures r != []
    ensures Truthy(v) ==> r == v.value
    ensures !Truthy(v) ==> r == Dash
  {
    if Truthy(v) then v.value else Dash
  }

  /** `s.slice(0, n)`. */
  function Slice(s: string, n: nat): (r: string)
    ensures |r| == if |s| < n then |s| else n
    ensures r == s[..|r|]
  {
    if |s| <= n then s else s[..n]
  }

  /** `t ? t.slice(0, 60) + (t.length > 60 ? "…" : "") : "—"`. */
  function Preview(t: Option<string>): (r: string)
  {
    if !Truthy(t) then Dash
    else Slice(t.value, PreviewLength) + (if |t.value| > PreviewLength then Ellipsis else "")
  }

  /**
   * The preview of a present text starts with the text's first 60
   * characters, and carries the ellipsis exactly when the text is longer:
   * a text of at most 60 characters is shown whole.
   */
  lemma PreviewShape(t: Option<string>)
    ensures !Truthy(t) ==> Preview(t) == Dash
    ensures Truthy(t) && |t.value| <= PreviewLength ==> Preview(t) == t.value
    ensures Truthy(t) && |t.value| > PreviewLength ==>
      |Preview(t)| == PreviewLength + 1
      && Preview(t)[..PreviewLength] == t.value[..PreviewLength]
      && Preview(t)[PreviewLength..] == Ellipsis
    ensures |Preview(t)| <= PreviewLength + 1
  {
    if Truthy(t) && |t.value| > PreviewLength {
      var p := Preview(t);
      assert p == t.value[..PreviewLength] + Ellipsis;
      assert p[..PreviewLength] == t.value[..PreviewLength];
    }
  }

  /** The decimal text of an integer, as `${n}` renders it. */
  function IntToString(n: int): (s: string)
    ensures n >= 0 ==> s == NatToString(n)
    ensures n < 0 ==> s == "-" + NatToString(-n)
  {
    if n >= 0 then NatToString(n) else "-" + NatToString(-n)
  }

  /** `n ?? "—"` for a number cell: unlike `||`, a 0 is shown. */
  function NumberOrDash(n: Option<int>): (r: string)
    ensures n.None? <==> r == Dash
    ensures n.Some? ==> r == IntToString(n.value)
  {
    if n.None? then Dash
    else
      var s := IntToString(n.value);
      assert s[0] != Dash[0];
      s
  }
}
