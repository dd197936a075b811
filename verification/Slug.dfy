/**
 The namespace that the new-project form proposes for a name, and the pattern by which
 the API judges it.  The name comes in lower-cased; nothing depends on how that is done.
 */
module Slug {
  predicate AlphaNum(c: char) { 'a' <= c <= 'z' || '0' <= c <= '9' }

  predicate Legal(c: char) { AlphaNum(c) || c == '-' }

  /** `.replace(/[^a-z0-9-]/g, "-")` */
  function Hyphenate(s: string): string {
    if s == [] then [] else [if Legal(s[0]) then s[0] else '-'] + Hyphenate(s[1..])
  }

  /** `.replace(/-+/g, "-")` */
  function Collapse(s: string): string {
    if |s| <= 1 then s
    else if s[0] == '-' && s[1] == '-' then Collapse(s[1..])
    else [s[0]] + Collapse(s[1..])
  }

  /** `.replace(/^-|-$/g, "")` */
  function Trim(s: string): string {
    var t := if s != [] && s[0] == '-' then s[1..] else s;
    if t != [] && t[|t| - 1] == '-' then t[..|t| - 1] else t
  }

  function Trimmed(lowered: string): string { Trim(Collapse(Hyphenate(lowered))) }

  /** The whole chain; `.slice(0, 63)` comes last. */
  function Slug(lowered: string): string {
    var t := Trimmed(lowered);
    if |t| <= 63 then t else t[..63]
  }

  /** `^[a-z0-9][a-z0-9\-]{1,61}[a-z0-9]$`, where `$` also matches before a final newline. */
  predicate NamespaceOk(v: string) {
    Body(v) || (v != [] && v[|v| - 1] == '\n' && Body(v[..|v| - 1]))
  }

  predicate Body(v: string) {
    3 <= |v| <= 63 && AlphaNum(v[0]) && AlphaNum(v[|v| - 1]) && forall i :: 0 < i < |v| - 1 ==> Legal(v[i])
  }

  predicate AllLegal(s: string) { forall c | c in s :: Legal(c) }

  /** The words of a name: its longest runs of letters and digits. */
  function Words(s: string): (ws: seq<string>)
    ensures s != "" && AlphaNum(s[0]) ==> ws != []
  {
    if s == "" then []
    else
      var rest := Words(s[1..]);
      if !AlphaNum(s[0]) then rest
      else if |s| > 1 && AlphaNum(s[1]) then [[s[0]] + rest[0]] + rest[1..]
      else [[s[0]]] + rest
  }

  function Hyphened(ws: seq<string>): string {
    if ws == [] then "" else if |ws| == 1 then ws[0] else ws[0] + "-" + Hyphened(ws[1..])
  }

  predicate NoDouble(s: string) { forall i :: 0 <= i < |s| - 1 ==> !(s[i] == '-' && s[i + 1] == '-') }

  lemma {:induction false} HyphenateLegal(s: string)
    ensures AllLegal(Hyphenate(s))
  {
    if s != [] { HyphenateLegal(s[1..]); }
  }

  lemma {:induction false} CollapseShape(s: string)
    requires AllLegal(s)
    ensures AllLegal(Collapse(s)) && NoDouble(Collapse(s))
    ensures Collapse(s) == [] <==> s == []
    ensures s != [] ==> Collapse(s)[0] == s[0]
  {
    if |s| > 1 { CollapseShape(s[1..]); }
  }

  /** After trimming no hyphen is left at either end. */
  lemma TrimmedShape(lowered: string)
    ensures var t := Trimmed(lowered);
            AllLegal(t) && NoDouble(t) && (t != [] ==> t[0] != '-' && t[|t| - 1] != '-')
  {
    HyphenateLegal(lowered);
    CollapseShape(Hyphenate(lowered));
  }

  predicate IsWord(w: string) { w != "" && forall c | c in w :: AlphaNum(c) }

  lemma {:induction false} WordsAreWords(s: string)
    ensures forall w | w in Words(s) :: IsWord(w)
  {
    if s != "" {
      WordsAreWords(s[1..]);
      var rest := Words(s[1..]);
      if AlphaNum(s[0]) && |s| > 1 && AlphaNum(s[1]) {
        assert rest[0] in rest;
        assert IsWord([s[0]] + rest[0]);
      } else if AlphaNum(s[0]) {
        assert IsWord([s[0]]);
      }
    }
  }

  lemma {:induction false} HyphenedEnds(ws: seq<string>)
    requires forall w | w in ws :: IsWord(w)
    ensures Hyphened(ws) == "" <==> ws == []
    ensures ws != [] ==> AlphaNum(Hyphened(ws)[0]) && AlphaNum(Hyphened(ws)[|Hyphened(ws)| - 1])
  {
    if ws != [] {
      assert ws[0] in ws;
      assert ws[0][0] in ws[0] && ws[0][|ws[0]| - 1] in ws[0];
      if |ws| > 1 { HyphenedEnds(ws[1..]); }
    }
  }

  /** A letter or digit more at the front belongs to the first word, or is one. */
  lemma HyphenedMore(c: char, s: string)
    requires AlphaNum(c)
    ensures Hyphened(Words([c] + s)) ==
              [c] + (if s != "" && !AlphaNum(s[0]) && Words(s) != [] then "-" else "") + Hyphened(Words(s))
  {
    assert ([c] + s)[1..] == s;
    var rest := Words(s);
    WordsAreWords(s);
    if s != "" && AlphaNum(s[0]) {
      var ws := [[c] + rest[0]] + rest[1..];
      assert Words([c] + s) == ws && ws[1..] == rest[1..];
    } else {
      assert Words([c] + s) == [[c]] + rest && ([[c]] + rest)[1..] == rest;
      HyphenedEnds(rest);
    }
  }

  /** Before trimming, the words are hyphened, with a hyphen for what stood before the first
      and one for what stood after the last. */
  lemma {:induction false} CollapsedWords(s: string)
    requires s != ""
    ensures Collapse(Hyphenate(s)) == Framed(Hyphened(Words(s)), !AlphaNum(s[0]), Trailing(s))
    ensures Words(s) == [] ==> !AlphaNum(s[|s| - 1])
  {
    var rest := s[1..];
    assert s == [s[0]] + rest;
    if rest == "" {
      assert Hyphenate(rest) == "";
      assert Words(s) == if AlphaNum(s[0]) then [[s[0]]] else [];
    } else {
      assert rest[|rest| - 1] == s[|s| - 1];
      CollapsedWords(rest);
      CollapseMore(s);
      if AlphaNum(s[0]) { HyphenedMore(s[0], rest); } else { assert Words(s) == Words(rest); }
      WordsAreWords(rest);
      HyphenedEnds(Words(rest));
      hide Collapse, Hyphenate, Hyphened, AlphaNum, Framed;
      FrameMore(s[0], AlphaNum(s[0]), AlphaNum(rest[0]), AlphaNum(s[|s| - 1]),
                Words(rest) != [], Hyphened(Words(rest)));
    }
  }

  /** The string part of it. */
  lemma FrameMore(c: char, here: bool, next: bool, last: bool, some: bool, core: string)
    requires (core != "" <==> some) && (next || last ==> some)
    ensures (if here then [c] else if next then "-" else "") + Framed(core, !next, some && !last)
         == Framed(if here then [c] + (if !next && some then "-" else "") + core else core,
                   !here, (here || some) && !last)
  {
  }

  function Framed(core: string, before: bool, after: bool): string {
    (if before then "-" else "") + core + (if after then "-" else "")
  }

  /** Something stands after the last word. */
  predicate Trailing(s: string)
    requires s != ""
  {
    Words(s) != [] && !AlphaNum(s[|s| - 1])
  }

  /** One more character at the front gives itself, a hyphen, or nothing after all. */
  lemma CollapseMore(s: string)
    requires |s| > 1
    ensures Collapse(Hyphenate(s)) ==
              (if AlphaNum(s[0]) then [s[0]] else if AlphaNum(s[1]) then "-" else "") + Collapse(Hyphenate(s[1..]))
  {
    assert Hyphenate(s)[1..] == Hyphenate(s[1..]);
    assert Hyphenate(s)[1] == Hyphenate(s[1..])[0];
  }

  lemma TrimmedIsWords(lowered: string)
    ensures Trimmed(lowered) == Hyphened(Words(lowered))
  {
    if lowered == "" {
      assert Trimmed(lowered) == "" && Words(lowered) == [];
    } else {
      var core := Hyphened(Words(lowered));
      CollapsedWords(lowered);
      WordsAreWords(lowered);
      HyphenedEnds(Words(lowered));
      hide Collapse, Hyphenate, Words, Hyphened;
      if core != "" {
        TrimEnds(core, !AlphaNum(lowered[0]), !AlphaNum(lowered[|lowered| - 1]));
      } else {
        assert Collapse(Hyphenate(lowered)) == "-";
      }
    }
  }

  /** At most one hyphen is taken off each end. */
  lemma TrimEnds(core: string, before: bool, after: bool)
    requires core != "" && core[0] != '-' && core[|core| - 1] != '-'
    ensures Trim(Framed(core, before, after)) == core
  {
    var tail := core + (if after then "-" else "");
    assert Framed(core, before, after) == (if before then "-" else "") + tail;
    assert before ==> ("-" + tail)[1..] == tail;
    assert tail[..|core|] == core;
  }

  /** The proposal is the name's words with single hyphens between them, cut at 63 characters;
      a short name of letters and digits alone is proposed as it is. */
  lemma SlugIsWords(lowered: string)
    ensures var g, all := Slug(lowered), Hyphened(Words(lowered));
            g <= all && |g| == (if |all| <= 63 then |all| else 63)
    ensures |lowered| <= 63 && (forall c | c in lowered :: 'a' <= c <= 'z' || '0' <= c <= '9') ==>
              Slug(lowered) == lowered
  {
    TrimmedIsWords(lowered);
    if forall c | c in lowered :: 'a' <= c <= 'z' || '0' <= c <= '9' { OneWord(lowered); }
  }

  lemma {:induction false} OneWord(s: string)
    requires forall c | c in s :: AlphaNum(c)
    ensures Words(s) == if s == "" then [] else [s]
  {
    if s != "" {
      OneWord(s[1..]);
      assert s == [s[0]] + s[1..] && s[0] in s;
      assert |s| > 1 ==> s[1] in s;
      if |s| > 1 {
        assert Words(s) == [s] + [] == [s];
      } else {
        assert [s[0]] == s;
        assert Words(s) == [[s[0]]] + [];
      }
    }
  }

  /** For every input the proposal has only legal characters, no double and no leading hyphen. */
  lemma SlugShape(lowered: string)
    ensures var g := Slug(lowered);
            && |g| <= 63 && (forall c | c in g :: 'a' <= c <= 'z' || '0' <= c <= '9' || c == '-')
            && NoDouble(g) && (g != [] ==> g[0] != '-')
  {
    TrimmedShape(lowered);
    assert forall c | c in Slug(lowered) :: Legal(c);
  }

  /** The cut at 63 characters left a hyphen at the end. */
  predicate CutOnHyphen(lowered: string) {
    |Trimmed(lowered)| > 63 && Trimmed(lowered)[62] == '-'
  }

  /** The API accepts the proposal exactly when it is long enough and the cut missed the hyphens. */
  lemma SlugAccepted(lowered: string)
    ensures NamespaceOk(Slug(lowered)) <==> |Slug(lowered)| >= 3 && !CutOnHyphen(lowered)
  {
    TrimmedShape(lowered);
    SlugShape(lowered);
    var g := Slug(lowered);
    assert forall i | 0 <= i < |g| :: g[i] in g;
    assert g != [] ==> Legal(g[|g| - 1]);
  }
}
