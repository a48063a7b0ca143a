/** The instance key of an integration: the runs of letters and digits of a name, joined by dashes. */
module InstanceKey {
  import Text

  predicate IsAlnum(c: char) { 'a' <= c <= 'z' || '0' <= c <= '9' }

  predicate IsWord(s: string) {
    s != "" && forall i | 0 <= i < |s| :: IsAlnum(s[i])
  }

  predicate AllWords(ws: seq<string>) { forall i | 0 <= i < |ws| :: IsWord(ws[i]) }

  /** The maximal runs of letters and digits of a text. */
  function Runs(s: string): (ws: seq<string>)
    ensures AllWords(ws)
    ensures s != "" && IsAlnum(s[|s| - 1]) ==> ws != []
  {
    if s == "" then []
    else
      var init, c := s[..|s| - 1], s[|s| - 1];
      var ws := Runs(init);
      if !IsAlnum(c) then ws
      else if init != "" && IsAlnum(init[|init| - 1]) then ws[..|ws| - 1] + [ws[|ws| - 1] + [c]]
      else ws + [[c]]
  }

  function Join(ws: seq<string>): string {
    if ws == [] then ""
    else if |ws| == 1 then ws[0]
    else Join(ws[..|ws| - 1]) + "-" + ws[|ws| - 1]
  }

  /** The grammar of keys: words separated by single dashes. */
  predicate IsKey(s: string) {
    && s != "" && IsAlnum(s[0]) && IsAlnum(s[|s| - 1])
    && (forall i | 0 <= i < |s| :: IsAlnum(s[i]) || s[i] == '-')
    && (forall i | 0 <= i < |s| - 1 :: IsAlnum(s[i]) || IsAlnum(s[i + 1]))
  }

  lemma {:induction false} JoinIsKey(ws: seq<string>)
    requires ws != [] && AllWords(ws)
    ensures IsKey(Join(ws))
  {
    if |ws| == 1 {
    } else {
      JoinIsKey(ws[..|ws| - 1]);
    }
  }

  /** Lengthens the last word. */
  function Lengthen(ws: seq<string>, c: char): seq<string>
    requires ws != []
  {
    ws[..|ws| - 1] + [ws[|ws| - 1] + [c]]
  }

  lemma RunsStep(s: string, c: char)
    ensures Runs(s + [c]) ==
            if !IsAlnum(c) then Runs(s)
            else if s != "" && IsAlnum(s[|s| - 1]) then Lengthen(Runs(s), c)
            else Runs(s) + [[c]]
  {
    var t := s + [c];
    assert t != "" && t[|t| - 1] == c && t[..|t| - 1] == s;
  }

  /** A word after a text that does not end in a letter or digit is one more run. */
  lemma {:induction false} RunsExtend(s: string, w: string)
    requires IsWord(w) && (s == "" || !IsAlnum(s[|s| - 1]))
    ensures Runs(s + w) == Runs(s) + [w]
  {
    var w', c := w[..|w| - 1], w[|w| - 1];
    assert s + w == (s + w') + [c] && w == w' + [c];
    RunsStep(s + w', c);
    if w' == "" {
      assert s + w' == s && w == [c];
    } else {
      RunsExtend(s, w');
      assert Lengthen(Runs(s) + [w'], c) == Runs(s) + [w' + [c]];
    }
  }

  /** One more word after a dash is one more run. */
  lemma RunsAfterDash(s: string, w: string)
    requires IsWord(w)
    ensures Runs(s + "-" + w) == Runs(s) + [w]
  {
    RunsStep(s, '-');
    assert s + ['-'] == s + "-";
    RunsExtend(s + "-", w);
  }

  lemma WordIsOneRun(w: string)
    requires IsWord(w)
    ensures Runs(w) == [w]
  {
    RunsExtend("", w);
    assert "" + w == w;
  }

  /** Reading back a join: the runs of the joined words are the words. */
  lemma {:induction false} RunsOfJoin(ws: seq<string>)
    requires AllWords(ws)
    ensures Runs(Join(ws)) == ws
  {
    if |ws| == 1 {
      WordIsOneRun(ws[0]);
    } else if ws != [] {
      var init, w := ws[..|ws| - 1], ws[|ws| - 1];
      assert ws == init + [w];
      assert Join(ws) == Join(init) + "-" + w;
      RunsOfJoin(init);
      RunsAfterDash(Join(init), w);
    }
  }

  /** The text a key is made from: the raw value, or the fallback if the raw value is blank. */
  function Chosen(raw: string, fallback: string): string {
    var value := Text.Lower(Text.Trim(raw));
    if value == "" then Text.Lower(Text.Trim(fallback)) else value
  }

  function Normalize(raw: string, fallback: string): string {
    var ws := Runs(Chosen(raw, fallback));
    if ws == [] then "default" else Join(ws)
  }

  /** strings.Trim(s, "-"). */
  function TrimDashes(s: string): string {
    if s == "" then s
    else if s[0] == '-' then TrimDashes(s[1..])
    else if s[|s| - 1] == '-' then TrimDashes(s[..|s| - 1])
    else s
  }

  method NormalizeInstanceKey(raw: string, fallback: string) returns (key: string)
    ensures key == Normalize(raw, fallback)
  {
    var value := Text.Lower(Text.Trim(raw));
    if value == "" {
      value := Text.Lower(Text.Trim(fallback));
    }
    if value == "" {
      return "default";
    }
    var builder, lastDash := ReadRunes(value);
    BuiltTrimmed(value, builder, lastDash);
    key := TrimDashes(builder);
    if key == "" {
      return "default";
    }
  }

  method ReadRunes(value: string) returns (builder: string, lastDash: bool)
    ensures Built(value, builder, lastDash)
  {
    builder, lastDash := "", false;
    for i := 0 to |value|
      invariant Built(value[..i], builder, lastDash)
    {
      var c := value[i];
      assert value[..i + 1] == value[..i] + [c];
      BuiltStep(value[..i], builder, lastDash, c);
      if IsAlnum(c) {
        builder := builder + [c];
        lastDash := false;
      } else if !lastDash && |builder| > 0 {
        builder := builder + ['-'];
        lastDash := true;
      }
    }
    assert value[..|value|] == value;
  }

  /** What the loop has written after reading `s`. */
  predicate Built(s: string, builder: string, lastDash: bool) {
    && builder == (if lastDash then Join(Runs(s)) + ['-'] else Join(Runs(s)))
    && (Runs(s) != [] <==> builder != "")
    && (builder != "" ==> s != "" && lastDash == !IsAlnum(s[|s| - 1]))
    && (lastDash ==> builder != "")
  }

  lemma BuiltStep(s: string, builder: string, lastDash: bool, c: char)
    requires Built(s, builder, lastDash)
    ensures if IsAlnum(c) then Built(s + [c], builder + [c], false)
            else if !lastDash && |builder| > 0 then Built(s + [c], builder + ['-'], true)
            else Built(s + [c], builder, lastDash)
  {
    var ws := Runs(s);
    RunsStep(s, c);
    JoinStep(ws, c);
    if ws != [] {
      JoinIsKey(ws);
    }
  }

  /** What appending a character does to a join: it lengthens the last word, or starts a new one. */
  lemma JoinStep(ws: seq<string>, c: char)
    ensures ws != [] ==> Join(Lengthen(ws, c)) == Join(ws) + [c]
    ensures Join(ws + [[c]]) == if ws == [] then [c] else Join(ws) + ['-'] + [c]
  {
    assert (ws + [[c]])[..|ws|] == ws;
    if ws != [] {
      var init := ws[..|ws| - 1];
      assert Lengthen(ws, c)[..|ws| - 1] == init;
      if init != [] {
        assert Join(init) + "-" + (ws[|ws| - 1] + [c]) == Join(init) + "-" + ws[|ws| - 1] + [c];
      }
    }
  }

  lemma BuiltTrimmed(s: string, builder: string, lastDash: bool)
    requires Built(s, builder, lastDash)
    ensures TrimDashes(builder) == Join(Runs(s))
  {
    if Runs(s) != [] {
      JoinIsKey(Runs(s));
      var key := Join(Runs(s));
      assert TrimDashes(key) == key;
      if lastDash {
        assert builder[..|builder| - 1] == key && builder[0] == key[0];
      }
    }
  }

  lemma DefaultIsKey()
    ensures IsWord("default") && IsKey("default")
  {
  }

  /** Every key obeys the grammar. */
  lemma KeyGrammar(raw: string, fallback: string)
    ensures IsKey(Normalize(raw, fallback))
  {
    DefaultIsKey();
    var ws := Runs(Chosen(raw, fallback));
    if ws != [] {
      JoinIsKey(ws);
    }
  }

  /** A key is chosen as it is. */
  lemma KeyIsChosen(key: string, other: string)
    requires IsKey(key)
    ensures Chosen(key, other) == key
  {
    assert Text.Trim(key) == key;
    assert Text.Lower(key) == key;
  }

  /** Normalising a key again gives the same key, whatever the fallback. */
  lemma KeyIdempotent(raw: string, fallback: string, other: string)
    ensures Normalize(Normalize(raw, fallback), other) == Normalize(raw, fallback)
  {
    KeyGrammar(raw, fallback);
    var ws := Runs(Chosen(raw, fallback));
    if ws != [] {
      KeyIsChosen(Join(ws), other);
      RunsOfJoin(ws);
    } else {
      KeyIsChosen("default", other);
      DefaultIsKey();
      WordIsOneRun("default");
    }
  }

  /** Without a letter or digit to work with, the key is "default". */
  lemma {:induction false} NoAlnumNoRuns(s: string)
    ensures Runs(s) == [] <==> forall i | 0 <= i < |s| :: !IsAlnum(s[i])
  {
    if s == "" {
    } else {
      NoAlnumNoRuns(s[..|s| - 1]);
    }
  }

  lemma DefaultExactly(raw: string, fallback: string)
    ensures (forall i | 0 <= i < |Chosen(raw, fallback)| :: !IsAlnum(Chosen(raw, fallback)[i])) ==>
            Normalize(raw, fallback) == "default"
    ensures Normalize(raw, fallback) == "default" ==>
              || (forall i | 0 <= i < |Chosen(raw, fallback)| :: !IsAlnum(Chosen(raw, fallback)[i]))
              || Runs(Chosen(raw, fallback)) == ["default"]
  {
    var ws := Runs(Chosen(raw, fallback));
    NoAlnumNoRuns(Chosen(raw, fallback));
    RunsOfJoin(ws);
    DefaultIsKey();
    WordIsOneRun("default");
  }

  // ----- a key, word by word -----

  predicate AllGap(s: string) { forall i | 0 <= i < |s| :: !IsAlnum(s[i]) }

  /** Words between gaps, a gap at either end. */
  function Spell(ws: seq<string>, gaps: seq<string>): string
    requires |gaps| == |ws| + 1
  {
    if ws == [] then gaps[0]
    else Spell(ws[..|ws| - 1], gaps[..|ws|]) + ws[|ws| - 1] + gaps[|ws|]
  }

  /** The gaps hold no letter or digit, and there is one between any two words. */
  predicate Separates(ws: seq<string>, gaps: seq<string>) {
    && |gaps| == |ws| + 1
    && (forall i | 0 <= i < |gaps| :: AllGap(gaps[i]))
    && (forall i | 0 < i < |ws| :: gaps[i] != "")
  }

  lemma {:induction false} RunsGap(s: string, gap: string)
    requires AllGap(gap)
    ensures Runs(s + gap) == Runs(s)
  {
    if gap == "" {
      assert s + gap == s;
    } else {
      var init, c := gap[..|gap| - 1], gap[|gap| - 1];
      RunsGap(s, init);
      assert s + gap == (s + init) + [c];
      RunsStep(s + init, c);
    }
  }

  lemma {:induction false} RunsOfSpelling(ws: seq<string>, gaps: seq<string>)
    requires AllWords(ws) && Separates(ws, gaps)
    ensures Runs(Spell(ws, gaps)) == ws
  {
    if ws == [] {
      RunsGap("", gaps[0]);
      assert "" + gaps[0] == gaps[0];
    } else {
      var n := |ws| - 1;
      var init := Spell(ws[..n], gaps[..n + 1]);
      RunsOfSpelling(ws[..n], gaps[..n + 1]);
      SpellingEnds(ws[..n], gaps[..n + 1]);
      RunsExtend(init, ws[n]);
      RunsGap(init + ws[n], gaps[n + 1]);
      assert ws == ws[..n] + [ws[n]];
    }
  }

  /** A spelling ends in its last gap; before a further word that gap is not empty. */
  lemma SpellingEnds(ws: seq<string>, gaps: seq<string>)
    requires Separates(ws, gaps) && (ws != [] ==> gaps[|ws|] != "")
    ensures var s := Spell(ws, gaps); s == "" || !IsAlnum(s[|s| - 1])
  {
  }

  /** Whatever separates the words of a text, its key is those words with single dashes between them. */
  lemma KeyExactly(raw: string, fallback: string, ws: seq<string>, gaps: seq<string>)
    requires AllWords(ws) && Separates(ws, gaps) && Chosen(raw, fallback) == Spell(ws, gaps)
    ensures Normalize(raw, fallback) == if ws == [] then "default" else Join(ws)
  {
    RunsOfSpelling(ws, gaps);
  }

  /** Every text is spelled by its runs, so the previous law covers them all. */
  lemma {:induction false} RunsSpell(s: string) returns (gaps: seq<string>)
    ensures Separates(Runs(s), gaps) && Spell(Runs(s), gaps) == s
    ensures s != "" ==> (gaps[|Runs(s)|] == "" <==> IsAlnum(s[|s| - 1]))
  {
    if s == "" {
      gaps := [""];
    } else {
      var init, c := s[..|s| - 1], s[|s| - 1];
      var before := RunsSpell(init);
      var ws := Runs(init);
      var n := |ws|;
      assert s == init + [c];
      RunsStep(init, c);
      if !IsAlnum(c) {
        gaps := before[n := before[n] + [c]];
        GapGrows(ws, before, c);
      } else if init != "" && IsAlnum(init[|init| - 1]) {
        gaps := before;
        WordGrows(ws, before, c);
      } else {
        gaps := before + [""];
        WordStarts(ws, before, c);
      }
    }
  }

  lemma GapGrows(ws: seq<string>, gaps: seq<string>, c: char)
    requires Separates(ws, gaps) && !IsAlnum(c)
    ensures var after := gaps[|ws| := gaps[|ws|] + [c]];
            Separates(ws, after) && Spell(ws, after) == Spell(ws, gaps) + [c]
  {
    var n := |ws|;
    var after := gaps[n := gaps[n] + [c]];
    if ws != [] {
      assert after[..n] == gaps[..n];
      var body := Spell(ws[..n - 1], gaps[..n]) + ws[n - 1];
      assert body + (gaps[n] + [c]) == body + gaps[n] + [c];
    }
  }

  lemma WordGrows(ws: seq<string>, gaps: seq<string>, c: char)
    requires Separates(ws, gaps) && ws != [] && gaps[|ws|] == ""
    ensures Separates(Lengthen(ws, c), gaps) && Spell(Lengthen(ws, c), gaps) == Spell(ws, gaps) + [c]
  {
    var n := |ws|;
    assert Lengthen(ws, c)[..n - 1] == ws[..n - 1];
    var body := Spell(ws[..n - 1], gaps[..n]);
    assert body + (ws[n - 1] + [c]) + "" == body + ws[n - 1] + "" + [c];
  }

  lemma WordStarts(ws: seq<string>, gaps: seq<string>, c: char)
    requires Separates(ws, gaps) && (ws != [] ==> gaps[|ws|] != "")
    ensures Separates(ws + [[c]], gaps + [""]) && Spell(ws + [[c]], gaps + [""]) == Spell(ws, gaps) + [c]
  {
    var n := |ws|;
    assert (ws + [[c]])[..n] == ws && (gaps + [""])[..n + 1] == gaps;
    assert Spell(ws, gaps) + [c] + "" == Spell(ws, gaps) + [c];
  }

  /** Letters and digits are those of ASCII, in lower case; the text is the raw value unless that is blank. */
  lemma TextExactly(raw: string, fallback: string, c: char)
    ensures IsAlnum(c) <==> c in Text.SMALL || c in Text.DIGITS
    ensures Chosen(raw, fallback) == Text.Lower(if Text.Trim(raw) == "" then Text.Trim(fallback) else Text.Trim(raw))
  {
    Text.SmallExactly(c);
    Text.DigitExactly(c);
  }
}
