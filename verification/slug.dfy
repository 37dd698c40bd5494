/** Normalization of provider names and error codes to dash-joined runs of letters and digits. */
module Slug {
  import opened Common

  /** What the model takes from Python's strings: `lower` and the whitespace that `strip` removes. */
  datatype Text = Text(lower: string -> string, isSpace: char -> bool)

  predicate IsWord(c: char) {
    'a' <= c <= 'z' || '0' <= c <= '9'
  }

  /** `re.sub(r"[^a-z0-9]+", "-", s)`; `inRun` says that the run before `s` already gave a dash. */
  function Collapse(s: string, inRun: bool): string {
    if s == "" then ""
    else if IsWord(s[0]) then [s[0]] + Collapse(s[1..], false)
    else if inRun then Collapse(s[1..], true)
    else "-" + Collapse(s[1..], true)
  }

  function StripLeft(s: string, drop: char -> bool): string {
    if s != "" && drop(s[0]) then StripLeft(s[1..], drop) else s
  }

  function StripRight(s: string, drop: char -> bool): string {
    if s != "" && drop(s[|s| - 1]) then StripRight(s[..|s| - 1], drop) else s
  }

  function Strip(s: string, drop: char -> bool): string {
    StripRight(StripLeft(s, drop), drop)
  }

  function IsDash(c: char): bool {
    c == '-'
  }

  function Normalize(x: Text, s: string): string {
    Strip(Collapse(x.lower(Strip(s, x.isSpace)), false), IsDash)
  }

  /** `_normalize_provider`: nothing left means no provider. */
  function NormalizeProvider(x: Text, provider: Option<string>): Option<string> {
    if provider.Some? && Normalize(x, provider.value) != "" then Some(Normalize(x, provider.value)) else None
  }

  const UNKNOWN := "platform-unknown"

  function NormalizeCode(x: Text, code: string): string {
    if Normalize(x, code) != "" then Normalize(x, code) else UNKNOWN
  }

  // ---------------------------------------------------------------------------
  // What normalization means
  // ---------------------------------------------------------------------------

  /** The maximal runs of letters and digits, in order. */
  function Words(s: string): (ws: seq<string>)
    ensures s != "" && IsWord(s[0]) ==> ws != []
  {
    if s == "" then []
    else
      var rest := Words(s[1..]);
      if !IsWord(s[0]) then rest
      else if |s| > 1 && IsWord(s[1]) then [[s[0]] + rest[0]] + rest[1..]
      else [[s[0]]] + rest
  }

  predicate AllWord(w: string) {
    forall i :: 0 <= i < |w| ==> IsWord(w[i])
  }

  ghost predicate Proper(ws: seq<string>) {
    forall i :: 0 <= i < |ws| ==> ws[i] != "" && AllWord(ws[i])
  }

  /** Non-empty runs of letters and digits joined by single dashes. */
  ghost predicate NormalForm(s: string) {
    exists ws :: Proper(ws) && s == JoinWith("-", ws)
  }

  lemma {:induction false} WordsProper(s: string)
    ensures Proper(Words(s))
  {
    if s != "" { WordsProper(s[1..]); }
  }

  lemma JoinHead(c: char, ws: seq<string>)
    requires ws != []
    ensures JoinWith("-", [[c] + ws[0]] + ws[1..]) == [c] + JoinWith("-", ws)
  {
    JoinWithHead("-", c, ws[0], ws[1..]);
    assert [ws[0]] + ws[1..] == ws;
  }

  lemma JoinCons(w: string, ws: seq<string>)
    ensures JoinWith("-", [w] + ws) == if ws == [] then w else w + "-" + JoinWith("-", ws)
  {
  }

  /** The text starts with other characters whose dash is still to come. */
  predicate Leads(s: string, inRun: bool) {
    s != "" && !IsWord(s[0]) && !inRun
  }

  predicate Trails(s: string) {
    s != "" && !IsWord(s[|s| - 1])
  }

  function WithLead(dash: bool, s: string): string {
    if dash then "-" + s else s
  }

  function WithTrail(s: string, dash: bool): string {
    if dash then s + "-" else s
  }

  lemma {:induction false} NoWords(s: string)
    requires Words(s) == []
    ensures forall i :: 0 <= i < |s| ==> !IsWord(s[i])
  {
    if s != "" {
      NoWords(s[1..]);
      assert forall i :: 1 <= i < |s| ==> s[i] == s[1..][i - 1];
    }
  }

  /** The joined words, with a dash for a run of other characters at either end. */
  function Framed(s: string, inRun: bool): string {
    if Words(s) == [] then WithLead(Leads(s, inRun), "")
    else WithLead(Leads(s, inRun), WithTrail(JoinWith("-", Words(s)), Trails(s)))
  }

  lemma AfterGap(s: string, inRun: bool)
    requires s != "" && !IsWord(s[0]) && Collapse(s[1..], true) == Framed(s[1..], true)
    ensures Collapse(s, inRun) == Framed(s, inRun)
  {
    assert !Leads(s[1..], true) && Words(s) == Words(s[1..]);
    if Words(s) != [] {
      assert Trails(s[1..]) == Trails(s);
    }
  }

  lemma FrontOfTrail(a: string, b: string, dash: bool)
    ensures a + WithTrail(b, dash) == WithTrail(a + b, dash)
  {
    assert a + (b + "-") == (a + b) + "-";
  }

  lemma InsideWord(s: string, inRun: bool)
    requires |s| > 1 && IsWord(s[0]) && IsWord(s[1]) && Collapse(s[1..], false) == Framed(s[1..], false)
    ensures Collapse(s, inRun) == Framed(s, inRun)
  {
    var rest := s[1..];
    assert !Leads(rest, false) && !Leads(s, inRun) && Trails(rest) == Trails(s);
    assert Words(s) == [[s[0]] + Words(rest)[0]] + Words(rest)[1..];
    JoinHead(s[0], Words(rest));
    FrontOfTrail([s[0]], JoinWith("-", Words(rest)), Trails(s));
  }

  /** A word of one character followed by a gap and more words. */
  lemma NextWord(c: char, ws: seq<string>, trails: bool)
    requires ws != []
    ensures [c] + WithLead(true, WithTrail(JoinWith("-", ws), trails)) == WithTrail(JoinWith("-", [[c]] + ws), trails)
  {
    var rest := JoinWith("-", ws);
    JoinCons([c], ws);
    FrontOfTrail("-", rest, trails);
    FrontOfTrail([c], "-" + rest, trails);
    assert [c] + ("-" + rest) == [c] + "-" + rest;
  }

  lemma WordSteps(s: string, inRun: bool)
    requires s != "" && IsWord(s[0]) && (|s| == 1 || !IsWord(s[1]))
    ensures Collapse(s, inRun) == [s[0]] + Collapse(s[1..], false)
    ensures Words(s) == [[s[0]]] + Words(s[1..]) && !Leads(s, inRun)
    ensures s[1..] != "" ==> Leads(s[1..], false) && Trails(s[1..]) == Trails(s)
  {
  }

  lemma WordEnds(s: string, inRun: bool)
    requires s != "" && IsWord(s[0]) && (|s| == 1 || !IsWord(s[1])) && Collapse(s[1..], false) == Framed(s[1..], false)
    ensures Collapse(s, inRun) == Framed(s, inRun)
  {
    WordSteps(s, inRun);
    if Words(s[1..]) == [] {
      LastWordEnds(s);
    } else {
      NextWord(s[0], Words(s[1..]), Trails(s));
    }
  }

  /** After the last word only other characters follow, which trail it. */
  lemma LastWordEnds(s: string)
    requires s != "" && IsWord(s[0]) && Words(s[1..]) == []
    ensures [s[0]] + WithLead(Leads(s[1..], false), "") == WithTrail([s[0]], Trails(s))
  {
    NoWords(s[1..]);
    assert "-" + "" == "-";
  }

  lemma {:induction false} CollapseIsJoin(s: string, inRun: bool)
    ensures Collapse(s, inRun) == Framed(s, inRun)
    decreases |s|
  {
    if s != "" {
      CollapseIsJoin(s[1..], !IsWord(s[0]));
      if !IsWord(s[0]) {
        AfterGap(s, inRun);
      } else if |s| > 1 && IsWord(s[1]) {
        InsideWord(s, inRun);
      } else {
        WordEnds(s, inRun);
      }
    }
  }

  lemma {:induction false} JoinEnds(ws: seq<string>)
    requires Proper(ws) && ws != []
    ensures var s := JoinWith("-", ws); s != "" && IsWord(s[0]) && IsWord(s[|s| - 1])
  {
    if |ws| > 1 {
      JoinEnds(ws[1..]);
      assert JoinWith("-", ws) == ws[0] + "-" + JoinWith("-", ws[1..]);
    }
  }

  lemma StripDashes(s: string, before: bool, after: bool)
    requires s != "" && IsWord(s[0]) && IsWord(s[|s| - 1])
    ensures Strip(WithLead(before, WithTrail(s, after)), IsDash) == s
  {
    var t := WithTrail(s, after);
    assert t[0] == s[0];
    assert StripLeft(t, IsDash) == t;
    if before {
      assert ("-" + t)[1..] == t;
    }
    assert StripRight(s, IsDash) == s;
    if after {
      assert (s + "-")[..|s|] == s;
    }
  }

  lemma StripDash(dash: bool)
    ensures Strip(WithLead(dash, ""), IsDash) == ""
  {
    if dash {
      var t := "-" + "";
      assert t[0] == '-' && t[1..] == "";
      assert StripLeft(t, IsDash) == StripLeft(t[1..], IsDash) == "";
    }
  }

  lemma JoinedIsNormal(ws: seq<string>)
    requires Proper(ws)
    ensures NormalForm(JoinWith("-", ws))
  {
  }

  lemma StrippedIsJoined(t: string)
    ensures Strip(Collapse(t, false), IsDash) == JoinWith("-", Words(t))
  {
    CollapseIsJoin(t, false);
    WordsProper(t);
    if Words(t) == [] {
      StripDash(Leads(t, false));
    } else {
      JoinEnds(Words(t));
      StripDashes(JoinWith("-", Words(t)), Leads(t, false), Trails(t));
    }
  }

  /** Normalizing joins the maximal runs of letters and digits of the stripped, lowered text by single dashes. */
  lemma NormalizeIsJoinedWords(x: Text, s: string)
    ensures Normalize(x, s) == JoinWith("-", Words(x.lower(Strip(s, x.isSpace))))
    ensures NormalForm(Normalize(x, s))
  {
    var t := x.lower(Strip(s, x.isSpace));
    StrippedIsJoined(t);
    WordsProper(t);
    JoinedIsNormal(Words(t));
  }

  // ---------------------------------------------------------------------------
  // Normal forms are fixed points
  // ---------------------------------------------------------------------------

  /** `lower` keeps lower-case letters, digits and dashes, none of which is whitespace. */
  ghost predicate IsPython(x: Text) {
    && (forall s :: (forall i :: 0 <= i < |s| ==> IsWord(s[i]) || s[i] == '-') ==> x.lower(s) == s)
    && (forall c :: IsWord(c) || c == '-' ==> !x.isSpace(c))
  }

  lemma {:induction false} WordsOfWordThen(w: string, rest: string)
    requires w != "" && AllWord(w) && (rest == "" || !IsWord(rest[0]))
    ensures Words(w + rest) == [w] + Words(rest)
  {
    assert (w + rest)[1..] == w[1..] + rest;
    if |w| > 1 {
      WordsOfWordThen(w[1..], rest);
      assert [w[0]] + w[1..] == w;
      assert ([w[1..]] + Words(rest))[1..] == Words(rest);
    } else {
      assert w[1..] + rest == rest && w == [w[0]];
    }
  }

  /** The words of a normal form are the ones it was joined from. */
  lemma {:induction false} WordsOfJoin(ws: seq<string>)
    requires Proper(ws)
    ensures Words(JoinWith("-", ws)) == ws
  {
    if ws != [] {
      var w := ws[0];
      if |ws| == 1 {
        assert JoinWith("-", ws) == w + "";
        WordsOfWordThen(w, "");
        assert [w] + Words("") == ws;
      } else {
        WordsOfJoin(ws[1..]);
        var rest := "-" + JoinWith("-", ws[1..]);
        assert JoinWith("-", ws) == w + rest && rest[1..] == JoinWith("-", ws[1..]);
        WordsOfWordThen(w, rest);
        assert [w] + ws[1..] == ws;
      }
    }
  }

  lemma {:induction false} JoinChars(ws: seq<string>)
    requires Proper(ws)
    ensures forall i :: 0 <= i < |JoinWith("-", ws)| ==> IsWord(JoinWith("-", ws)[i]) || JoinWith("-", ws)[i] == '-'
  {
    if |ws| > 1 {
      JoinChars(ws[1..]);
      assert JoinWith("-", ws) == ws[0] + "-" + JoinWith("-", ws[1..]);
    }
  }

  /** The fixed points of normalization are exactly the normal forms; so normalizing twice is normalizing once. */
  lemma NormalizeFixesExactlyNormalForms(x: Text, s: string)
    requires IsPython(x)
    ensures Normalize(x, s) == s <==> NormalForm(s)
    ensures Normalize(x, Normalize(x, s)) == Normalize(x, s)
  {
    NormalizeIsJoinedWords(x, s);
    NormalFormFixed(x, Normalize(x, s));
    if NormalForm(s) {
      NormalFormFixed(x, s);
    }
  }

  lemma NormalFormFixed(x: Text, s: string)
    requires IsPython(x) && NormalForm(s)
    ensures Normalize(x, s) == s
  {
    var ws :| Proper(ws) && s == JoinWith("-", ws);
    JoinChars(ws);
    WordsOfJoin(ws);
    PlainText(x, s);
    NormalizeIsJoinedWords(x, s);
  }

  lemma {:induction false} JoinAppend(ws: seq<string>, vs: seq<string>)
    requires ws != [] && vs != []
    ensures JoinWith("-", ws + vs) == JoinWith("-", ws) + "-" + JoinWith("-", vs)
  {
    if |ws| == 1 {
      assert ws + vs == [ws[0]] + vs;
      JoinCons(ws[0], vs);
    } else {
      assert (ws + vs)[1..] == ws[1..] + vs;
      JoinAppend(ws[1..], vs);
      assert ws[0] + "-" + (JoinWith("-", ws[1..]) + "-" + JoinWith("-", vs))
             == (ws[0] + "-" + JoinWith("-", ws[1..])) + "-" + JoinWith("-", vs);
    }
  }

  /** A dash separates words. */
  lemma {:induction false} WordsAcross(s: string, t: string)
    ensures Words(s + "-" + t) == Words(s) + Words(t)
    decreases |s|
  {
    var all := s + "-" + t;
    if s == "" {
      assert all[1..] == t;
    } else {
      assert all[1..] == s[1..] + "-" + t;
      WordsAcross(s[1..], t);
      var rest := Words(s[1..]);
      if IsWord(s[0]) && |s| > 1 && IsWord(s[1]) {
        assert ([[s[0]] + rest[0]] + rest[1..]) + Words(t) == [[s[0]] + (rest + Words(t))[0]] + (rest + Words(t))[1..];
      }
    }
  }

  /** Two non-empty normal forms joined by a dash are one. */
  lemma NormalFormJoined(s: string, t: string)
    requires NormalForm(s) && NormalForm(t) && s != "" && t != ""
    ensures NormalForm(s + "-" + t)
  {
    var ws :| Proper(ws) && s == JoinWith("-", ws);
    var vs :| Proper(vs) && t == JoinWith("-", vs);
    JoinAppend(ws, vs);
    assert Proper(ws + vs) && s + "-" + t == JoinWith("-", ws + vs);
  }

  lemma WordsOfDoubled(s: string, t: string)
    ensures Words(s + "--" + t) == Words(s) + Words(t)
  {
    WordsAcross(s, "-" + t);
    WordsAcross("", t);
    assert s + "-" + ("-" + t) == s + "--" + t && "" + "-" + t == "-" + t;
    assert Words("") + Words(t) == Words(t);
  }

  lemma NormalChars(s: string)
    requires NormalForm(s)
    ensures forall i :: 0 <= i < |s| ==> IsWord(s[i]) || s[i] == '-'
  {
    var ws :| Proper(ws) && s == JoinWith("-", ws);
    JoinChars(ws);
  }

  /** The words of a normal form join back to it. */
  lemma NormalWords(s: string)
    requires NormalForm(s)
    ensures Proper(Words(s)) && s == JoinWith("-", Words(s))
  {
    var ws :| Proper(ws) && s == JoinWith("-", ws);
    WordsOfJoin(ws);
  }

  /** A doubled dash between normal forms collapses to one. */
  lemma DoubledDash(x: Text, s: string, t: string)
    requires IsPython(x) && NormalForm(s) && NormalForm(t) && s != "" && t != ""
    ensures Normalize(x, s + "--" + t) == s + "-" + t
  {
    NormalChars(s);
    NormalChars(t);
    PlainText(x, s + "--" + t);
    NormalizeIsJoinedWords(x, s + "--" + t);
    WordsOfDoubled(s, t);
    NormalWords(s);
    NormalWords(t);
    JoinAppend(Words(s), Words(t));
  }

  /** Neither stripping nor lowering changes a text of word characters and dashes. */
  lemma PlainText(x: Text, s: string)
    requires IsPython(x) && forall i :: 0 <= i < |s| ==> IsWord(s[i]) || s[i] == '-'
    ensures x.lower(Strip(s, x.isSpace)) == s
  {
    if s != "" {
      assert !x.isSpace(s[0]) && !x.isSpace(s[|s| - 1]);
    }
    assert Strip(s, x.isSpace) == s;
  }

  lemma WordIsNormal(w: string)
    requires AllWord(w)
    ensures NormalForm(w)
  {
    if w == "" {
      assert Proper([]) && w == JoinWith("-", []);
    } else {
      assert Proper([w]) && w == JoinWith("-", [w]);
    }
  }

  lemma UnknownIsNormal()
    ensures NormalForm(UNKNOWN)
  {
    WordIsNormal("platform");
    WordIsNormal("unknown");
    NormalFormJoined("platform", "unknown");
    assert "platform" + "-" + "unknown" == UNKNOWN;
  }

  /** A code joined from two normal forms is stable. */
  lemma JoinedCode(x: Text, s: string, t: string)
    requires IsPython(x) && NormalForm(s) && NormalForm(t) && s != "" && t != ""
    ensures NormalForm(s + "-" + t) && NormalizeCode(x, s + "-" + t) == s + "-" + t
  {
    NormalFormJoined(s, t);
    NormalFormFixed(x, s + "-" + t);
  }

  /** A second dash between them makes no difference. */
  lemma JoinedByTwo(x: Text, s: string, t: string)
    requires IsPython(x) && NormalForm(s) && NormalForm(t) && s != "" && t != ""
    ensures NormalizeCode(x, s + "--" + t) == s + "-" + t
  {
    DoubledDash(x, s, t);
  }

  /** Codes are non-empty normal forms, and normalizing them again changes nothing. */
  lemma CodeIsStable(x: Text, code: string)
    requires IsPython(x)
    ensures NormalForm(NormalizeCode(x, code)) && NormalizeCode(x, code) != ""
    ensures NormalizeCode(x, NormalizeCode(x, code)) == NormalizeCode(x, code)
  {
    var r := NormalizeCode(x, code);
    if r == UNKNOWN {
      UnknownIsNormal();
    } else {
      NormalizeIsJoinedWords(x, code);
    }
    NormalFormFixed(x, r);
  }

  /** Providers are non-empty normal forms or absent, and normalizing them again changes nothing. */
  lemma ProviderIsStable(x: Text, provider: Option<string>)
    requires IsPython(x)
    ensures NormalizeProvider(x, NormalizeProvider(x, provider)) == NormalizeProvider(x, provider)
    ensures NormalizeProvider(x, provider).Some?
            ==> NormalizeProvider(x, provider).value != "" && NormalForm(NormalizeProvider(x, provider).value)
  {
    if provider.Some? {
      NormalizeIsJoinedWords(x, provider.value);
      NormalFormFixed(x, Normalize(x, provider.value));
    }
  }

  /** A provider is recorded exactly if a letter or digit is left in its stripped, lowered text. */
  lemma ProviderIsJoinedWords(x: Text, provider: Option<string>)
    ensures var r := NormalizeProvider(x, provider);
            if provider.None? || Words(x.lower(Strip(provider.value, x.isSpace))) == [] then r == None
            else r == Some(JoinWith("-", Words(x.lower(Strip(provider.value, x.isSpace)))))
  {
    if provider.Some? {
      var ws := Words(x.lower(Strip(provider.value, x.isSpace)));
      NormalizeIsJoinedWords(x, provider.value);
      WordsProper(x.lower(Strip(provider.value, x.isSpace)));
      assert ws != [] ==> JoinWith("-", ws)[0] == ws[0][0];
    }
  }

  /** The characters that normalization keeps, by their ASCII codes. */
  lemma WordCharacters(c: char)
    ensures IsWord(c) <==> 48 <= c as int <= 57 || 97 <= c as int <= 122
  {
  }
}
