/** What parsing `DEFAULT_RULES` into a fresh rule container yields, and the
    request policy that follows from it. */
module DefaultRules {
  import opened Wrappers
  import opened Text
  import opened Rule
  import opened UblockParser
  import opened Interceptor

  /** The hosts `DEFAULT_RULES` turns the matrix off for. */
  const MATRIX_OFF_HOSTS: set<string> := {
    "about-scheme", "behind-the-scene", "chrome-extension-scheme", "chrome-scheme",
    "moz-extension-scheme", "opera-scheme", "vivaldi-scheme", "wyciwyg-scheme", "qute-scheme"
  }

  /** The cells the rule lines of `DEFAULT_RULES` set: from anywhere to
      anywhere, block all but style sheets and images, and block frames
      explicitly; to `1st-party`, allow everything and frames explicitly. */
  function DefaultCell(source: string, dest: string, t: Type): Action {
    if source == "*" && dest == "*" then
      (if t == All || t == Frame then Block else if t == Css || t == Image then Allow else Inherit)
    else if source == "*" && dest == "1st-party" then
      (if t == All || t == Frame then Allow else Inherit)
    else Inherit
  }

  /** The flags `DEFAULT_RULES` sets: `True` on the matrix-off hosts and
      `HttpsStrict` on `behind-the-scene`; the spoofing lines set nothing. */
  function DefaultFlags(host: string): set<Flag> {
    (if host in MATRIX_OFF_HOSTS then {True} else {}) +
    (if host == "behind-the-scene" then {HttpsStrict} else {})
  }

  /** What each line of `DEFAULT_RULES` does, in order. */
  const DEFAULT_EFFECTS: seq<Effect> := [
    NoChange,
    AddFlagTo("behind-the-scene", HttpsStrict),
    AddFlagTo("about-scheme", True),
    AddFlagTo("behind-the-scene", True),
    AddFlagTo("chrome-extension-scheme", True),
    AddFlagTo("chrome-scheme", True),
    AddFlagTo("moz-extension-scheme", True),
    AddFlagTo("opera-scheme", True),
    AddFlagTo("vivaldi-scheme", True),
    AddFlagTo("wyciwyg-scheme", True),
    AddFlagTo("qute-scheme", True),
    NoChange,
    NoChange,
    NoChange,
    SetCell("*", "*", All, Block),
    SetCell("*", "*", Css, Allow),
    SetCell("*", "*", Frame, Block),
    SetCell("*", "*", Image, Allow),
    SetCell("*", "1st-party", All, Allow),
    SetCell("*", "1st-party", Frame, Allow)
  ]

  // The words and tokens `DEFAULT_RULES` is written with.

  /** Lower-case letters, digits, `-` and `*` make a directive word. */
  predicate Plain(w: string) {
    w != [] && forall i | 0 <= i < |w| :: 'a' <= w[i] <= 'z' || '0' <= w[i] <= '9' || w[i] == '-' || w[i] == '*'
  }

  lemma PlainWord(w: string)
    requires Plain(w)
    ensures DirectiveWord(w) && Word(w)
  {
  }

  lemma DirectiveWords()
    ensures DirectiveWord("https-strict") && DirectiveWord("matrix-off")
  {
    PlainWord("https-strict");
    PlainWord("matrix-off");
  }

  lemma SpoofWords()
    ensures DirectiveWord("noscript-spoof") && DirectiveWord("referrer-spoof")
  {
    PlainWord("noscript-spoof");
    PlainWord("referrer-spoof");
  }

  lemma StateWords()
    ensures Word("*") && Word("true") && Word("false") && Word("behind-the-scene")
  {
    PlainWord("*");
    PlainWord("true");
    PlainWord("false");
    PlainWord("behind-the-scene");
  }

  lemma AboutChromeSchemeWords()
    ensures Word("about-scheme") && Word("chrome-scheme")
  {
    PlainWord("about-scheme");
    PlainWord("chrome-scheme");
  }

  lemma ExtensionWord()
    ensures Word("chrome-extension-scheme")
  {
    PlainWord("chrome-extension-scheme");
  }

  lemma MozOperaSchemeWords()
    ensures Word("moz-extension-scheme") && Word("opera-scheme")
  {
    PlainWord("moz-extension-scheme");
    PlainWord("opera-scheme");
  }

  lemma VivaldiWyciwygQuteSchemeWords()
    ensures Word("vivaldi-scheme") && Word("wyciwyg-scheme") && Word("qute-scheme")
  {
    PlainWord("vivaldi-scheme");
    PlainWord("wyciwyg-scheme");
    PlainWord("qute-scheme");
  }

  lemma TypeToken(token: string, t: Type)
    requires |token| == |TypeName(t)|
    requires forall i | 0 <= i < |token| :: TypeName(t)[i] == UpperChar(token[i])
    ensures ParseType(token) == Some(t)
  {
    UpperIs(token, TypeName(t));
    ParseTypeSpec(token, t);
  }

  lemma ActionToken(token: string, a: Action)
    requires |token| == |ActionName(a)|
    requires forall i | 0 <= i < |token| :: ActionName(a)[i] == UpperChar(token[i])
    ensures ParseAction(token) == Some(a)
  {
    UpperIs(token, ActionName(a));
    ParseActionSpec(token, a);
  }

  /** A rule field that names type `t`. */
  predicate TypeField(w: string, t: Type) {
    Word(w) && ':' !in w && ParseType(w) == Some(t)
  }

  /** A rule field that names action `a`. */
  predicate ActionField(w: string, a: Action) {
    Word(w) && ':' !in w && ParseAction(w) == Some(a)
  }

  lemma StarField()
    ensures TypeField("*", All)
  {
    StarToken();
  }

  lemma CssField()
    ensures TypeField("css", Css)
  {
    TypeToken("css", Css);
  }

  lemma FrameField()
    ensures TypeField("frame", Frame)
  {
    TypeToken("frame", Frame);
  }

  lemma ImageField()
    ensures TypeField("image", Image)
  {
    TypeToken("image", Image);
  }

  lemma AllowField()
    ensures ActionField("allow", Allow)
  {
    ActionToken("allow", Allow);
  }

  lemma BlockField()
    ensures ActionField("block", Block)
  {
    ActionToken("block", Block);
  }

  lemma FirstPartyField()
    ensures Word("1st-party") && ':' !in "1st-party"
  {
    PlainWord("1st-party");
  }

  lemma TrueToken()
    ensures Upper("true") == FlagName(True)
  {
    UpperIs("true", "TRUE");
  }

  // The line shapes `DEFAULT_RULES` uses.

  /** A directive line of words holds no line break. */
  lemma DirectiveTextLine(d: string, a: string, b: string)
    requires Word(d) && Word(a) && Word(b)
    ensures '\n' !in DirectiveText(d, a, b)
  {
    assert IsSpace('\n');
  }

  /** A rule line of words holds no line break. */
  lemma RuleTextLine(a: string, b: string, c: string, e: string)
    requires Word(a) && Word(b) && Word(c) && Word(e)
    ensures '\n' !in RuleText(a, b, c, e)
  {
    assert IsSpace('\n');
  }

  /** `matrix-off: h true` turns the matrix off for `h`. */
  lemma MatrixOffTrueLine(h: string)
    requires Word(h)
    ensures ParseLine(DirectiveText("matrix-off", h, "true")) == Success(AddFlagTo(h, True))
  {
    DirectiveWords();
    StateWords();
    DirectiveLine("matrix-off", h, "true");
    TrueToken();
    MatrixOffWords(h, ' ', "true", True);
  }

  /** `https-strict: h s` sets `HttpsStrict` on `h`, whatever `s` says. */
  lemma HttpsStrictLine(h: string, s: string)
    requires Word(h) && Word(s)
    ensures ParseLine(DirectiveText("https-strict", h, s)) == Success(AddFlagTo(h, HttpsStrict))
  {
    DirectiveWords();
    DirectiveLine("https-strict", h, s);
    HttpsStrictWords(h, ' ', s);
  }

  /** `d: h s` for a directive the parser does not know changes nothing. */
  lemma IgnoredLine(d: string, h: string, s: string)
    requires DirectiveWord(d) && d != "rule" && d != "matrix-off" && d != "https-strict"
    requires Word(h) && Word(s)
    ensures ParseLine(DirectiveText(d, h, s)) == Success(NoChange)
  {
    DirectiveLine(d, h, s);
  }

  // Each line of `DEFAULT_RULES`, by its shape.

  lemma ShapeWords()
    ensures Word("matrix-off") && Word("https-strict") && Word("true")
  {
    PlainWord("matrix-off");
    PlainWord("https-strict");
    PlainWord("true");
  }

  /** Line k is `matrix-off: h true`. */
  lemma MatrixOffEntry(k: nat, h: string)
    requires k < |DEFAULT_RULE_LINES| && k < |DEFAULT_EFFECTS| && Word(h)
    requires DEFAULT_RULE_LINES[k] == DirectiveText("matrix-off", h, "true")
    requires DEFAULT_EFFECTS[k] == AddFlagTo(h, True)
    ensures ParseLine(DEFAULT_RULE_LINES[k]) == Success(DEFAULT_EFFECTS[k]) && '\n' !in DEFAULT_RULE_LINES[k]
  {
    ShapeWords();
    MatrixOffTrueLine(h);
    DirectiveTextLine("matrix-off", h, "true");
  }

  /** Line k is `https-strict: h s`. */
  lemma HttpsStrictEntry(k: nat, h: string, s: string)
    requires k < |DEFAULT_RULE_LINES| && k < |DEFAULT_EFFECTS| && Word(h) && Word(s)
    requires DEFAULT_RULE_LINES[k] == DirectiveText("https-strict", h, s)
    requires DEFAULT_EFFECTS[k] == AddFlagTo(h, HttpsStrict)
    ensures ParseLine(DEFAULT_RULE_LINES[k]) == Success(DEFAULT_EFFECTS[k]) && '\n' !in DEFAULT_RULE_LINES[k]
  {
    ShapeWords();
    HttpsStrictLine(h, s);
    DirectiveTextLine("https-strict", h, s);
  }

  /** Line k is `d: h s` for a directive the parser ignores. */
  lemma IgnoredEntry(k: nat, d: string, h: string, s: string)
    requires k < |DEFAULT_RULE_LINES| && k < |DEFAULT_EFFECTS|
    requires DirectiveWord(d) && d != "rule" && d != "matrix-off" && d != "https-strict"
    requires Word(h) && Word(s)
    requires DEFAULT_RULE_LINES[k] == DirectiveText(d, h, s)
    requires DEFAULT_EFFECTS[k] == NoChange
    ensures ParseLine(DEFAULT_RULE_LINES[k]) == Success(DEFAULT_EFFECTS[k]) && '\n' !in DEFAULT_RULE_LINES[k]
  {
    IgnoredLine(d, h, s);
    DirectiveTextLine(d, h, s);
  }

  /** Line k is the rule `a b c e`. */
  lemma RuleEntry(k: nat, a: string, b: string, c: string, e: string, u: Type, act: Action)
    requires k < |DEFAULT_RULE_LINES| && k < |DEFAULT_EFFECTS|
    requires Word(a) && ':' !in a && Word(b) && ':' !in b && TypeField(c, u) && ActionField(e, act)
    requires DEFAULT_RULE_LINES[k] == RuleText(a, b, c, e)
    requires DEFAULT_EFFECTS[k] == SetCell(a, b, u, act)
    ensures ParseLine(DEFAULT_RULE_LINES[k]) == Success(DEFAULT_EFFECTS[k]) && '\n' !in DEFAULT_RULE_LINES[k]
  {
    FourFieldRule(a, b, c, e, u, act);
    RuleTextLine(a, b, c, e);
  }

  /** Lines 1 to 10 set flags. */
  lemma FlagLines()
    ensures forall k | 1 <= k <= 10 ::
      ParseLine(DEFAULT_RULE_LINES[k]) == Success(DEFAULT_EFFECTS[k]) && '\n' !in DEFAULT_RULE_LINES[k]
  {
    StateWords();
    AboutChromeSchemeWords();
    ExtensionWord();
    MozOperaSchemeWords();
    VivaldiWyciwygQuteSchemeWords();
    forall k | 1 <= k <= 10
      ensures ParseLine(DEFAULT_RULE_LINES[k]) == Success(DEFAULT_EFFECTS[k]) && '\n' !in DEFAULT_RULE_LINES[k]
    {
      if k == 1 {
        HttpsStrictEntry(k, "behind-the-scene", "false");
      } else if k == 2 {
        MatrixOffEntry(k, "about-scheme");
      } else if k == 3 {
        MatrixOffEntry(k, "behind-the-scene");
      } else if k == 4 {
        MatrixOffEntry(k, "chrome-extension-scheme");
      } else if k == 5 {
        MatrixOffEntry(k, "chrome-scheme");
      } else if k == 6 {
        MatrixOffEntry(k, "moz-extension-scheme");
      } else if k == 7 {
        MatrixOffEntry(k, "opera-scheme");
      } else if k == 8 {
        MatrixOffEntry(k, "vivaldi-scheme");
      } else if k == 9 {
        MatrixOffEntry(k, "wyciwyg-scheme");
      } else {
        MatrixOffEntry(k, "qute-scheme");
      }
    }
  }

  /** Lines 11 to 13 are spoofing directives the parser ignores. */
  lemma SpoofLines()
    ensures forall k | 11 <= k <= 13 ::
      ParseLine(DEFAULT_RULE_LINES[k]) == Success(DEFAULT_EFFECTS[k]) && '\n' !in DEFAULT_RULE_LINES[k]
  {
    StateWords();
    SpoofWords();
    forall k | 11 <= k <= 13
      ensures ParseLine(DEFAULT_RULE_LINES[k]) == Success(DEFAULT_EFFECTS[k]) && '\n' !in DEFAULT_RULE_LINES[k]
    {
      if k == 11 {
        IgnoredEntry(k, "noscript-spoof", "*", "true");
      } else if k == 12 {
        IgnoredEntry(k, "referrer-spoof", "*", "true");
      } else {
        IgnoredEntry(k, "referrer-spoof", "behind-the-scene", "false");
      }
    }
  }

  /** Lines 14 and 15: block everything, allow style sheets. */
  lemma BlockAllAllowCssLines()
    ensures forall k | 14 <= k <= 15 ::
      ParseLine(DEFAULT_RULE_LINES[k]) == Success(DEFAULT_EFFECTS[k]) && '\n' !in DEFAULT_RULE_LINES[k]
  {
    StarField();
    forall k | 14 <= k <= 15
      ensures ParseLine(DEFAULT_RULE_LINES[k]) == Success(DEFAULT_EFFECTS[k]) && '\n' !in DEFAULT_RULE_LINES[k]
    {
      if k == 14 {
        BlockField();
        RuleEntry(k, "*", "*", "*", "block", All, Block);
      } else {
        CssField();
        AllowField();
        RuleEntry(k, "*", "*", "css", "allow", Css, Allow);
      }
    }
  }

  /** Lines 16 and 17: block frames, allow images. */
  lemma BlockFrameAllowImageLines()
    ensures forall k | 16 <= k <= 17 ::
      ParseLine(DEFAULT_RULE_LINES[k]) == Success(DEFAULT_EFFECTS[k]) && '\n' !in DEFAULT_RULE_LINES[k]
  {
    StarField();
    forall k | 16 <= k <= 17
      ensures ParseLine(DEFAULT_RULE_LINES[k]) == Success(DEFAULT_EFFECTS[k]) && '\n' !in DEFAULT_RULE_LINES[k]
    {
      if k == 16 {
        FrameField();
        BlockField();
        RuleEntry(k, "*", "*", "frame", "block", Frame, Block);
      } else {
        ImageField();
        AllowField();
        RuleEntry(k, "*", "*", "image", "allow", Image, Allow);
      }
    }
  }

  /** Lines 18 and 19: allow everything and frames to `1st-party`. */
  lemma FirstPartyLines()
    ensures forall k | 18 <= k <= 19 ::
      ParseLine(DEFAULT_RULE_LINES[k]) == Success(DEFAULT_EFFECTS[k]) && '\n' !in DEFAULT_RULE_LINES[k]
  {
    StarField();
    AllowField();
    FirstPartyField();
    forall k | 18 <= k <= 19
      ensures ParseLine(DEFAULT_RULE_LINES[k]) == Success(DEFAULT_EFFECTS[k]) && '\n' !in DEFAULT_RULE_LINES[k]
    {
      if k == 18 {
        RuleEntry(k, "*", "1st-party", "*", "allow", All, Allow);
      } else {
        FrameField();
        RuleEntry(k, "*", "1st-party", "frame", "allow", Frame, Allow);
      }
    }
  }

  /** Line 0 is empty. */
  lemma BlankEntry()
    ensures ParseLine(DEFAULT_RULE_LINES[0]) == Success(DEFAULT_EFFECTS[0]) && '\n' !in DEFAULT_RULE_LINES[0]
  {
  }

  /** Every line of `DEFAULT_RULES` parses to its effect. */
  lemma AllLines()
    ensures |DEFAULT_RULE_LINES| == |DEFAULT_EFFECTS| == 20
    ensures forall k | 0 <= k < |DEFAULT_RULE_LINES| ::
      ParseLine(DEFAULT_RULE_LINES[k]) == Success(DEFAULT_EFFECTS[k]) && '\n' !in DEFAULT_RULE_LINES[k]
  {
    forall k | 0 <= k < |DEFAULT_RULE_LINES|
      ensures ParseLine(DEFAULT_RULE_LINES[k]) == Success(DEFAULT_EFFECTS[k]) && '\n' !in DEFAULT_RULE_LINES[k]
    {
      if k == 0 {
        BlankEntry();
      } else if k <= 10 {
        FlagLines();
      } else if k <= 13 {
        SpoofLines();
      } else if k <= 15 {
        BlockAllAllowCssLines();
      } else if k <= 17 {
        BlockFrameAllowImageLines();
      } else {
        FirstPartyLines();
      }
    }
  }

  // What the effects of `DEFAULT_RULES` leave in the tables.

  /** Twenty effects whose last six are the rule lines of `DEFAULT_RULES`
      and whose others set no cell leave every cell as `DefaultCell` says. */
  lemma CellEffects(effects: seq<Effect>, t: Tables, s: string, d: string, u: Type)
    requires |effects| == 20
    requires forall k | 0 <= k < 14 :: !effects[k].SetCell?
    requires effects[14] == SetCell("*", "*", All, Block) && effects[15] == SetCell("*", "*", Css, Allow)
    requires effects[16] == SetCell("*", "*", Frame, Block) && effects[17] == SetCell("*", "*", Image, Allow)
    requires effects[18] == SetCell("*", "1st-party", All, Allow) && effects[19] == SetCell("*", "1st-party", Frame, Allow)
    ensures DefaultCell(s, d, u) != Inherit ==>
      Lookup(ApplyAll(effects, t).matrix, s, d, u) == DefaultCell(s, d, u)
    ensures DefaultCell(s, d, u) == Inherit ==>
      Lookup(ApplyAll(effects, t).matrix, s, d, u) == Lookup(t.matrix, s, d, u)
  {
    if DefaultCell(s, d, u) == Inherit {
      ApplyAllUnwritten(effects, t, s, d, u);
    } else if d == "*" && u == All {
      ApplyAllLastWrite(effects, t, s, d, u, 14);
    } else if d == "*" && u == Css {
      ApplyAllLastWrite(effects, t, s, d, u, 15);
    } else if d == "*" && u == Frame {
      ApplyAllLastWrite(effects, t, s, d, u, 16);
    } else if d == "*" {
      ApplyAllLastWrite(effects, t, s, d, u, 17);
    } else if u == All {
      ApplyAllLastWrite(effects, t, s, d, u, 18);
    } else {
      ApplyAllLastWrite(effects, t, s, d, u, 19);
    }
  }

  /** The rule lines set exactly the cells `DefaultCell` names; every other
      cell keeps what it had. */
  lemma DefaultEffectsCells(t: Tables, s: string, d: string, u: Type)
    ensures DefaultCell(s, d, u) != Inherit ==>
      Lookup(ApplyAll(DEFAULT_EFFECTS, t).matrix, s, d, u) == DefaultCell(s, d, u)
    ensures DefaultCell(s, d, u) == Inherit ==>
      Lookup(ApplyAll(DEFAULT_EFFECTS, t).matrix, s, d, u) == Lookup(t.matrix, s, d, u)
  {
    CellEffects(DEFAULT_EFFECTS, t, s, d, u);
  }

  /** Twenty effects whose lines 1 to 10 are the flag lines of
      `DEFAULT_RULES` and whose others add no flag add the flags
      `DefaultFlags` names. */
  lemma FlagEffects(effects: seq<Effect>, h: string)
    requires |effects| == 20
    requires !effects[0].AddFlagTo? && forall k | 11 <= k < 20 :: !effects[k].AddFlagTo?
    requires effects[1] == AddFlagTo("behind-the-scene", HttpsStrict)
    requires effects[2] == AddFlagTo("about-scheme", True) && effects[3] == AddFlagTo("behind-the-scene", True)
    requires effects[4] == AddFlagTo("chrome-extension-scheme", True) && effects[5] == AddFlagTo("chrome-scheme", True)
    requires effects[6] == AddFlagTo("moz-extension-scheme", True) && effects[7] == AddFlagTo("opera-scheme", True)
    requires effects[8] == AddFlagTo("vivaldi-scheme", True) && effects[9] == AddFlagTo("wyciwyg-scheme", True)
    requires effects[10] == AddFlagTo("qute-scheme", True)
    ensures FlagsAdded(effects, h) == DefaultFlags(h)
  {
    forall f
      ensures f in FlagsAdded(effects, h) <==> f in DefaultFlags(h)
    {
      if f in FlagsAdded(effects, h) {
        var k :| 0 <= k < |effects| && AddsFlag(effects[k], h) && effects[k].flag == f;
      }
      if f == HttpsStrict && h == "behind-the-scene" {
        assert AddsFlag(effects[1], h) && effects[1].flag == f;
      }
      if f == True && h in MATRIX_OFF_HOSTS {
        var k := if h == "about-scheme" then 2
          else if h == "behind-the-scene" then 3
          else if h == "chrome-extension-scheme" then 4
          else if h == "chrome-scheme" then 5
          else if h == "moz-extension-scheme" then 6
          else if h == "opera-scheme" then 7
          else if h == "vivaldi-scheme" then 8
          else if h == "wyciwyg-scheme" then 9
          else 10;
        assert AddsFlag(effects[k], h) && effects[k].flag == f;
      }
    }
  }

  lemma BehindTheSceneAboutEntries()
    ensures DEFAULT_EFFECTS[1] == AddFlagTo("behind-the-scene", HttpsStrict)
    ensures DEFAULT_EFFECTS[2] == AddFlagTo("about-scheme", True) && DEFAULT_EFFECTS[3] == AddFlagTo("behind-the-scene", True)
  {
  }

  lemma ChromeMozOperaEntries()
    ensures DEFAULT_EFFECTS[4] == AddFlagTo("chrome-extension-scheme", True) && DEFAULT_EFFECTS[5] == AddFlagTo("chrome-scheme", True)
    ensures DEFAULT_EFFECTS[6] == AddFlagTo("moz-extension-scheme", True) && DEFAULT_EFFECTS[7] == AddFlagTo("opera-scheme", True)
  {
  }

  lemma VivaldiWyciwygQuteEntries()
    ensures DEFAULT_EFFECTS[8] == AddFlagTo("vivaldi-scheme", True) && DEFAULT_EFFECTS[9] == AddFlagTo("wyciwyg-scheme", True)
    ensures DEFAULT_EFFECTS[10] == AddFlagTo("qute-scheme", True)
  {
  }

  lemma NoFlagEntries()
    ensures |DEFAULT_EFFECTS| == 20
    ensures !DEFAULT_EFFECTS[0].AddFlagTo? && forall k | 11 <= k < 20 :: !DEFAULT_EFFECTS[k].AddFlagTo?
  {
  }

  /** The directive lines add exactly the flags `DefaultFlags` names. */
  lemma DefaultEffectsFlags(h: string)
    ensures FlagsAdded(DEFAULT_EFFECTS, h) == DefaultFlags(h)
  {
    NoFlagEntries();
    BehindTheSceneAboutEntries();
    ChromeMozOperaEntries();
    VivaldiWyciwygQuteEntries();
    FlagEffects(DEFAULT_EFFECTS, h);
  }

  /** `DEFAULT_RULES` reads back as its lines. */
  lemma DefaultLines()
    ensures Lines(DEFAULT_RULES) == DEFAULT_RULE_LINES
  {
    AllLines();
    LinesJoin(DEFAULT_RULE_LINES);
  }

  /** Parsing `DEFAULT_RULES` raises nothing and applies its effects in order. */
  lemma DefaultRun(t: Tables)
    ensures Run(Lines(DEFAULT_RULES), t) == Outcome(None, ApplyAll(DEFAULT_EFFECTS, t))
  {
    AllLines();
    DefaultLines();
    RunAllSucceed(DEFAULT_RULE_LINES, DEFAULT_EFFECTS, t);
  }

  /** Parsing `DEFAULT_RULES` into a container succeeds, sets the cells
      `DefaultCell` names, adds the flags `DefaultFlags` names, and leaves
      everything else as it was. */
  lemma DefaultRulesParsed(t: Tables, s: string, d: string, u: Type, h: string)
    ensures Run(Lines(DEFAULT_RULES), t).err.None?
    ensures DefaultCell(s, d, u) != Inherit ==>
      Lookup(Run(Lines(DEFAULT_RULES), t).tables.matrix, s, d, u) == DefaultCell(s, d, u)
    ensures DefaultCell(s, d, u) == Inherit ==>
      Lookup(Run(Lines(DEFAULT_RULES), t).tables.matrix, s, d, u) == Lookup(t.matrix, s, d, u)
    ensures FlagsOf(Run(Lines(DEFAULT_RULES), t).tables.flags, h) == FlagsOf(t.flags, h) + DefaultFlags(h)
  {
    DefaultRun(t);
    DefaultEffectsCells(t, s, d, u);
    ApplyAllFlags(DEFAULT_EFFECTS, t, h);
    DefaultEffectsFlags(h);
  }

  /** Into a fresh container, `DEFAULT_RULES` yields exactly the default
      matrix and flags. */
  lemma DefaultRulesFresh(t: Tables, s: string, d: string, u: Type, h: string)
    requires t.matrix == map[] && t.flags == map[]
    ensures Run(Lines(DEFAULT_RULES), t).err.None?
    ensures Lookup(Run(Lines(DEFAULT_RULES), t).tables.matrix, s, d, u) == DefaultCell(s, d, u)
    ensures FlagsOf(Run(Lines(DEFAULT_RULES), t).tables.flags, h) == DefaultFlags(h)
  {
    assert s !in t.matrix && FlagsOf(t.flags, h) == {};
    assert FlagsOf(t.flags, h) + DefaultFlags(h) == DefaultFlags(h);
    DefaultRulesParsed(t, s, d, u, h);
  }

  // The request policy `DEFAULT_RULES` gives.

  /** Under the default matrix, a request is blocked exactly when the matrix
      is on for its context and it is neither a style sheet nor an image:
      the `* *` pair blocks everything else, and nothing blocks those two. */
  lemma DefaultMatrixPolicy(m: Matrix, off: map<string, bool>, ch: string, cs: string, rh: string, t: Type)
    requires forall s, d, u :: Lookup(m, s, d, u) == DefaultCell(s, d, u)
    ensures Decision(m, off, ch, cs, rh, t) <==> !MatrixOff(off, ch, cs) && t != Css && t != Image
  {
    StarInWiden(ch);
    StarInWiden(rh);
    if t != Css && t != Image {
      if !MatrixOff(off, ch, cs) {
        assert PairBlocks(m, "*", "*", t);
        BlockWins(m, off, ch, cs, rh, t, "*", "*");
      }
    } else {
      assert PairAllows(m, "*", "*", t);
      forall c, r | c in Widen(ch) && r in Widen(rh)
        ensures !PairBlocks(m, c, r, t)
      {
        assert Lookup(m, c, r, t) == DefaultCell(c, r, t);
      }
      NotBlockedExactly(m, off, ch, cs, rh, t);
    }
  }

  /** With the flags `DEFAULT_RULES` sets as the matrix-off table, the matrix
      is off for a context exactly when one of its candidates is a
      matrix-off host. */
  lemma DefaultMatrixOff(flags: FlagTable, ch: string, cs: string)
    requires forall h :: FlagsOf(flags, h) == DefaultFlags(h)
    ensures MatrixOff(OffTable(flags), ch, cs) <==> exists h | h in OffCandidates(ch, cs) :: h in MATRIX_OFF_HOSTS
  {
    MatrixOffFromFlags(flags, ch, cs);
  }

  /** A browser that starts from `DEFAULT_RULES` blocks a request exactly
      when no candidate of its context is a matrix-off host and it is
      neither a style sheet nor an image. */
  lemma DefaultRulesDecision(t0: Tables, ch: string, cs: string, rh: string, u: Type)
    requires t0.matrix == map[] && t0.flags == map[]
    ensures var tables := Run(Lines(DEFAULT_RULES), t0).tables;
      Decision(tables.matrix, OffTable(tables.flags), ch, cs, rh, u) <==>
        (forall h | h in OffCandidates(ch, cs) :: h !in MATRIX_OFF_HOSTS) && u != Css && u != Image
  {
    var tables := Run(Lines(DEFAULT_RULES), t0).tables;
    forall s, d, t
      ensures Lookup(tables.matrix, s, d, t) == DefaultCell(s, d, t)
    {
      DefaultRulesFresh(t0, s, d, t, "");
    }
    forall h
      ensures FlagsOf(tables.flags, h) == DefaultFlags(h)
    {
      DefaultRulesFresh(t0, "", "", All, h);
    }
    DefaultMatrixOff(tables.flags, ch, cs);
    DefaultMatrixPolicy(tables.matrix, OffTable(tables.flags), ch, cs, rh, u);
  }
}
