/**
 * The contact modal of a task (src/client/src/modules/project/components/ContactList.jsx):
 * `nameFromEmail`, which turns the local part of an e-mail address into a
 * display name, and the add form: the payload `add` sends, the reset after
 * a successful insert, and the name the e-mail field's blur handler fills in.
 */
module ContactList {
  import ProjectApi
  import opened Wrappers
  import opened Text
  import opened ClientText

  // --------------------------------------------------------- nameFromEmail

  predicate AllLetters(s: string) {
    forall i :: 0 <= i < |s| ==> IsLetter(s[i])
  }

  /** `email.split("@")[0]`: everything before the first `@`. */
  function LocalPart(email: string): (r: string)
    ensures |r| <= |email| && r == email[..|r|]
    ensures '@' !in r
    ensures |r| == |email| || email[|r|] == '@'
  {
    if email == [] || email[0] == '@' then []
    else
      var rest := LocalPart(email[1..]);
      assert [email[0]] + rest == email[..|rest| + 1];
      [email[0]] + rest
  }

  /** The letters `s` starts with. */
  function LeadingLetters(s: string): (w: string)
    ensures |w| <= |s| && w == s[..|w|] && AllLetters(w)
    ensures |w| == |s| || !IsLetter(s[|w|])
  {
    if s == [] || !IsLetter(s[0]) then []
    else
      var rest := LeadingLetters(s[1..]);
      assert [s[0]] + rest == s[..|rest| + 1];
      [s[0]] + rest
  }

  /** `s.split(/[^a-zA-Z]+/g).filter(Boolean)`: the maximal runs of ASCII letters, in order. */
  function Words(s: string): (ws: seq<string>)
    ensures forall i :: 0 <= i < |ws| ==> ws[i] != [] && AllLetters(ws[i])
    decreases |s|
  {
    if s == [] then []
    else if !IsLetter(s[0]) then Words(s[1..])
    else
      var w := LeadingLetters(s);
      [w] + Words(s[|w|..])
  }

  /** `p.charAt(0).toUpperCase() + p.slice(1).toLowerCase()`. */
  function Capitalize(w: string): (r: string)
    ensures |r| == |w|
  {
    if w == [] then [] else [UpperChar(w[0])] + Lower(w[1..])
  }

  function CapitalizeAll(ws: seq<string>): (r: seq<string>)
    ensures |r| == |ws|
    ensures forall i :: 0 <= i < |ws| ==> r[i] == Capitalize(ws[i])
  {
    if ws == [] then [] else [Capitalize(ws[0])] + CapitalizeAll(ws[1..])
  }

  /** `nameFromEmail(email)`. */
  function NameFromEmail(email: string): string {
    Join(" ", CapitalizeAll(Words(LocalPart(email))))
  }

  /** An upper-case letter followed by lower-case letters. */
  predicate Capitalized(w: string) {
    w != [] && IsUpper(w[0]) && forall i :: 1 <= i < |w| ==> IsLower(w[i])
  }

  /** ASCII letters, with single spaces only between two letters. */
  predicate NameShaped(r: string) {
    forall i :: 0 <= i < |r| ==> IsLetter(r[i]) || SpaceBetweenLetters(r, i)
  }

  predicate SpaceBetweenLetters(r: string, i: int) {
    0 < i < |r| - 1 && r[i] == ' ' && IsLetter(r[i - 1]) && IsLetter(r[i + 1])
  }

  // ------------------------------------------------------------------ lemmas

  /** The characters of a capitalised word: the first upper-cased, the others lower-cased. */
  lemma CapitalizeAt(w: string)
    ensures forall i :: 0 < i < |w| ==> Capitalize(w)[i] == LowerChar(w[i])
    ensures w != [] ==> Capitalize(w)[0] == UpperChar(w[0])
  {
    var c := Capitalize(w);
    forall i | 0 < i < |w| ensures c[i] == LowerChar(w[i]) {
      assert c[i] == Lower(w[1..])[i - 1];
    }
  }

  /** A capitalised word is a capitalised letter run, equal to the word up to case. */
  lemma CapitalizeShape(w: string)
    requires w != [] && AllLetters(w)
    ensures Capitalized(Capitalize(w)) && AllLetters(Capitalize(w))
    ensures Lower(Capitalize(w)) == Lower(w)
    ensures Capitalize(Capitalize(w)) == Capitalize(w)
  {
    var c := Capitalize(w);
    CapitalizeAt(w);
    CapitalizeAt(c);
    forall i | 0 <= i < |w|
      ensures IsLetter(c[i]) && (i == 0 ==> IsUpper(c[i])) && (i > 0 ==> IsLower(c[i]))
      ensures Lower(c)[i] == Lower(w)[i] && Capitalize(c)[i] == c[i]
    {
      CaseChar(w[i]);
    }
  }

  /** No letter anywhere in `s`. */
  predicate NoLetter(s: string) {
    forall i :: 0 <= i < |s| ==> !IsLetter(s[i])
  }

  lemma {:induction false} WordsEmptyIff(s: string)
    ensures Words(s) == [] <==> NoLetter(s)
    decreases |s|
  {
    if s != [] && !IsLetter(s[0]) {
      WordsEmptyIff(s[1..]);
      if NoLetter(s[1..]) {
        forall i | 0 <= i < |s| ensures !IsLetter(s[i]) {
          if i > 0 { assert s[i] == s[1..][i - 1]; }
        }
      }
    }
  }

  /** The letters at the head of a word followed by a non-letter are the word. */
  lemma {:induction false} LeadingLettersOf(w: string, rest: string)
    requires AllLetters(w)
    requires rest == [] || !IsLetter(rest[0])
    ensures LeadingLetters(w + rest) == w
    decreases |w|
  {
    if w != [] {
      LeadingLettersOf(w[1..], rest);
      assert (w + rest)[1..] == w[1..] + rest;
    } else {
      assert w + rest == rest;
    }
  }

  function JoinedWords(ws: seq<string>): string {
    Join(" ", ws)
  }

  /** Words joined by single spaces split back into the same words. */
  lemma {:induction false} WordsOfJoin(ws: seq<string>)
    requires forall i :: 0 <= i < |ws| ==> ws[i] != [] && AllLetters(ws[i])
    ensures Words(Join(" ", ws)) == ws
    decreases |ws|
  {
    if |ws| == 1 {
      LeadingLettersOf(ws[0], []);
      assert ws[0] + [] == ws[0];
      assert ws[0][|ws[0]|..] == [];
    } else if |ws| > 1 {
      var w := ws[0];
      var tail := Join(" ", ws[1..]);
      var s := Join(" ", ws);
      assert s == w + (" " + tail);
      LeadingLettersOf(w, " " + tail);
      assert s[|w|..] == " " + tail;
      assert (" " + tail)[1..] == tail;
      WordsOfJoin(ws[1..]);
      assert [w] + ws[1..] == ws;
    }
  }

  /** Joining non-empty letter runs by single spaces gives a name-shaped text that starts and ends with a letter. */
  lemma {:induction false} JoinShaped(ws: seq<string>)
    requires forall i :: 0 <= i < |ws| ==> ws[i] != [] && AllLetters(ws[i])
    ensures NameShaped(Join(" ", ws))
    ensures Join(" ", ws) == [] <==> ws == []
    ensures ws != [] ==> IsLetter(Join(" ", ws)[0]) && IsLetter(Join(" ", ws)[|Join(" ", ws)| - 1])
    decreases |ws|
  {
    if |ws| > 1 {
      var w := ws[0];
      var tail := Join(" ", ws[1..]);
      JoinShaped(ws[1..]);
      var s := Join(" ", ws);
      assert s == w + " " + tail;
      forall i | 0 <= i < |s|
        ensures IsLetter(s[i]) || SpaceBetweenLetters(s, i)
      {
        if i < |w| {
          assert s[i] == w[i];
        } else if i == |w| {
          assert s[i - 1] == w[|w| - 1] && s[i + 1] == tail[0];
        } else {
          var j := i - |w| - 1;
          assert s[i] == tail[j];
          if !IsLetter(tail[j]) {
            assert s[i - 1] == tail[j - 1] && s[i + 1] == tail[j + 1];
          }
        }
      }
      assert s[|s| - 1] == tail[|tail| - 1];
    }
  }

  /** Only the text before the first `@` counts. */
  lemma LocalPartOnly(local: string, domain: string)
    requires '@' !in local
    ensures LocalPart(local + "@" + domain) == local
    ensures NameFromEmail(local + "@" + domain) == NameFromEmail(local)
  {
    var e := local + "@" + domain;
    var l := LocalPart(e);
    assert e[|local|] == '@';
    assert forall i :: 0 <= i < |local| ==> e[i] == local[i] && e[i] != '@';
    assert l == e[..|local|] == local;
    LocalPartOfNoAt(local);
  }

  lemma LocalPartOfNoAt(s: string)
    requires '@' !in s
    ensures LocalPart(s) == s
  {
  }

  /**
   * The name is the capitalised letter runs of the local part, joined by
   * single spaces: splitting it again gives exactly those words, and it
   * holds nothing but ASCII letters and single interior spaces.
   */
  lemma NameFromEmailShape(email: string)
    ensures Words(NameFromEmail(email)) == CapitalizeAll(Words(LocalPart(email)))
    ensures forall i :: 0 <= i < |Words(NameFromEmail(email))| ==> Capitalized(Words(NameFromEmail(email))[i])
    ensures NameShaped(NameFromEmail(email))
    ensures NameFromEmail(email) == [] || (!IsSpace(NameFromEmail(email)[0]) && !IsSpace(NameFromEmail(email)[|NameFromEmail(email)| - 1]))
  {
    var ws := Words(LocalPart(email));
    var cs := CapitalizeAll(ws);
    forall i | 0 <= i < |cs| ensures cs[i] != [] && AllLetters(cs[i]) && Capitalized(cs[i]) {
      CapitalizeShape(ws[i]);
    }
    WordsOfJoin(cs);
    JoinShaped(cs);
  }

  /** An empty address, or a local part without ASCII letters, gives the empty name; any letter gives a non-empty one. */
  lemma NameFromEmailEmpty(email: string)
    ensures NameFromEmail(email) == [] <==> NoLetter(LocalPart(email))
    ensures NameFromEmail("") == []
  {
    var ws := Words(LocalPart(email));
    WordsEmptyIff(LocalPart(email));
    forall i | 0 <= i < |ws| ensures CapitalizeAll(ws)[i] != [] && AllLetters(CapitalizeAll(ws)[i]) {
      CapitalizeShape(ws[i]);
    }
    JoinShaped(CapitalizeAll(ws));
  }

  /** Capitalising capitalised words changes nothing. */
  lemma CapitalizeAllIdempotent(ws: seq<string>)
    requires forall i :: 0 <= i < |ws| ==> ws[i] != [] && AllLetters(ws[i])
    ensures CapitalizeAll(CapitalizeAll(ws)) == CapitalizeAll(ws)
  {
    forall i | 0 <= i < |ws| ensures CapitalizeAll(CapitalizeAll(ws))[i] == CapitalizeAll(ws)[i] {
      CapitalizeShape(ws[i]);
    }
  }

  lemma NameShapedHasNoAt(r: string)
    requires NameShaped(r)
    ensures '@' !in r
  {
    forall i | 0 <= i < |r| ensures r[i] != '@' {
      assert IsLetter(r[i]) || r[i] == ' ';
    }
  }

  /** A derived name derives itself: `nameFromEmail(nameFromEmail(e)) == nameFromEmail(e)`. */
  lemma NameFromEmailIdempotent(email: string)
    ensures NameFromEmail(NameFromEmail(email)) == NameFromEmail(email)
  {
    var n := NameFromEmail(email);
    var ws := Words(LocalPart(email));
    NameFromEmailShape(email);
    NameShapedHasNoAt(n);
    LocalPartOfNoAt(n);
    CapitalizeAllIdempotent(ws);
  }

  // -------------------------------------------------------------- the form

  /** What `add` sends to `insertContact`. */
  datatype ContactPayload = ContactPayload(email: string, name: string, position: Option<string>)

  /** `name.trim() || nameFromEmail(email.trim())`, the rule `add` and the blur handler share. */
  function FinalName(name: string, email: string): (r: string)
    ensures !IsBlank(name) ==> r == Trim(name)
    ensures IsBlank(name) ==> r == NameFromEmail(Trim(email))
  {
    if IsBlank(name) then NameFromEmail(Trim(email)) else Trim(name)
  }

  /** The payload of `add` for the typed form. */
  function AddPayload(email: string, name: string, position: string): ContactPayload {
    ContactPayload(Trim(email), FinalName(name, email), TrimOrNull(position))
  }

  /**
   * The name `add` sends is trimmed, and a typed name is never replaced:
   * it is the typed name exactly when that is not blank.
   */
  lemma FinalNameTrimmed(name: string, email: string)
    ensures Trim(FinalName(name, email)) == FinalName(name, email)
    ensures FinalName(name, email) == Trim(name) <==> !IsBlank(name) || NameFromEmail(Trim(email)) == []
  {
    if IsBlank(name) {
      NameFromEmailShape(Trim(email));
      TrimOfTrimmed(NameFromEmail(Trim(email)));
    } else {
      TrimIdempotent(name);
    }
  }

  /** Blurring the e-mail field twice fills the name once: the second blur changes nothing. */
  lemma BlurIdempotent(name: string, email: string)
    ensures FinalName(FinalName(name, email), email) == FinalName(name, email)
  {
    FinalNameTrimmed(name, email);
    if IsBlank(name) {
      TrimIdempotent(FinalName(name, email));
    } else {
      TrimIdempotent(name);
    }
  }

  /** The modal's form state and error line. */
  class ContactForm {
    var email: string
    var name: string
    var position: string
    var err: string

    constructor ()
      ensures email == "" && name == "" && position == "" && err == ""
    {
      email := "";
      name := "";
      position := "";
      err := "";
    }

    /**
     * `add` against the API object the view expects, which has
     * `insertContact`: sends the payload; on success the form is emptied, on
     * failure it is kept and the error message shown.
     */
    method Add(answer: ProjectApi.Answer) returns (sent: ContactPayload)
      modifies this
      ensures sent == AddPayload(old(email), old(name), old(position))
      ensures answer.Ok? ==> email == "" && name == "" && position == "" && err == old(err)
      ensures answer.Failed? ==> email == old(email) && name == old(name) && position == old(position) && err == answer.message
    {
      sent := AddPayload(email, name, position);
      ProjectApi.ContactMethodsMissing(answer);
      AfterInsert(ProjectApi.Call(ProjectApi.WithContacts, "insertContact", answer));
    }

    /**
     * `add` as written: `api.js` has no `insertContact`, so the call throws
     * inside `add` before `.then` and `.catch` are attached. No request goes
     * out, the form is never emptied and no error is shown.
     */
    method AddAsWritten(answer: ProjectApi.Answer) returns (sent: Option<ContactPayload>)
      modifies this
      ensures sent.None?
      ensures email == old(email) && name == old(name) && position == old(position) && err == old(err)
    {
      ProjectApi.ContactMethodsMissing(answer);
      var s := ProjectApi.Call(ProjectApi.Exported, "insertContact", answer);
      sent := if s.Threw? then None else Some(AddPayload(email, name, position));
      AfterInsert(s);
    }

    /**
     * The `.then`/`.catch` of `add`: a resolved insert empties the three
     * fields, a rejected one shows its message, and a call that threw
     * reaches neither.
     */
    method AfterInsert(s: ProjectApi.Settled)
      modifies this
      ensures s == ProjectApi.Answered(ProjectApi.Ok) ==> email == "" && name == "" && position == "" && err == old(err)
      ensures s.Answered? && s.answer.Failed? ==>
        email == old(email) && name == old(name) && position == old(position) && err == s.answer.message
      ensures s.Threw? ==> email == old(email) && name == old(name) && position == old(position) && err == old(err)
    {
      match s
      case Threw =>
      case Answered(Ok) =>
        email, name, position := "", "", "";
      case Answered(Failed(m)) =>
        err := m;
    }

    /** The e-mail field's `onBlur`: the name becomes `FinalName`; nothing else changes. */
    method Blur()
      modifies this
      ensures name == FinalName(old(name), old(email))
      ensures email == old(email) && position == old(position) && err == old(err)
    {
      name := FinalName(name, email);
    }
  }
}
