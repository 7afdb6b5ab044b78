/** The uMatrix rule-text parser: each line is stripped of its comment, split
    into a directive and its argument, and handed to that directive's converter,
    which either raises a parser error or writes into the `Rules` container. */
module UblockParser {
  import opened Wrappers
  import opened Text
  import opened Rule

  /** Why a line was refused (`JMatrixParserError`); `arg` is the argument text. */
  datatype Reason = FieldCount | BadAction | BadRequestType | BadBoolean
  datatype ParserError = ParserError(reason: Reason, arg: string)

  /** What one accepted line does to the rule store. */
  datatype Effect =
    | NoChange
    | SetCell(source: string, dest: string, rqType: Type, action: Action)
    | AddFlagTo(host: string, flag: Flag)

  function Apply(e: Effect, t: Tables): Tables {
    match e
    case NoChange => t
    case SetCell(s, d, u, a) => Tables(WriteCell(t.matrix, s, d, u, a), t.flags)
    case AddFlagTo(h, f) => Tables(t.matrix, AddFlag(t.flags, h, f))
  }

  /** An action token, case-insensitively. */
  function ParseAction(token: string): Option<Action>
  {
    ActionFromName(Upper(token))
  }

  /** A request-type token, case-insensitively, with `*` for `All` and
      `plugin` as the old name of `Media`. */
  function ParseType(token: string): Option<Type>
  {
    var u := Upper(token);
    var name := if u == "*" then "ALL" else if u == "PLUGIN" then "MEDIA" else u;
    TypeFromName(name)
  }

  /** The rule fields after the missing type (`*`) and action (`allow`) are filled in. */
  function Padded(fields: seq<string>): (r: seq<string>)
    requires 2 <= |fields| <= 4
    ensures |r| == 4 && forall i | 0 <= i < |fields| :: r[i] == fields[i]
    ensures |fields| < 3 ==> r[2] == "*"
    ensures |fields| < 4 ==> r[3] == "allow"
  {
    var withType := if |fields| < 3 then fields + ["*"] else fields;
    if |withType| < 4 then withType + ["allow"] else withType
  }

  /** What `_rule_converter` makes of its argument. */
  function RuleArgs(r: string): Result<Effect, ParserError> {
    var fields := Split(r);
    if !(2 <= |fields| <= 4) then Failure(ParserError(FieldCount, r))
    else
      var full := Padded(fields);
      var action := ParseAction(full[3]);
      if action.None? then Failure(ParserError(BadAction, r))
      else
        var rqType := ParseType(full[2]);
        if rqType.None? then Failure(ParserError(BadRequestType, r))
        else Success(SetCell(full[0], full[1], rqType.value, action.value))
  }

  /** What `_matrix_off_converter` makes of its argument. */
  function MatrixOffArgs(r: string): Result<Effect, ParserError> {
    var fields := Split(r);
    if |fields| != 2 then Failure(ParserError(FieldCount, r))
    else
      var state := FlagFromName(Upper(fields[1]));
      if state.None? then Failure(ParserError(BadBoolean, r))
      else Success(AddFlagTo(fields[0], state.value))
  }

  /** What `_matrix_flag_converter` makes of its argument: the flag is named
      by the directive, and the state token is not looked at. */
  function MatrixFlagArgs(d: string, r: string): Result<Effect, ParserError> {
    var fields := Split(r);
    if |fields| != 2 then Failure(ParserError(FieldCount, r))
    else
      var flag := FlagFromName(ReplaceChar(Upper(d), '-', '_'));
      if flag.None? then Failure(ParserError(BadBoolean, r))
      else Success(AddFlagTo(fields[0], flag.value))
  }

  /** `RULE_TO_CONVERTER`: the three known directives; any other directive is
      reported and skipped. */
  function Convert(d: string, arg: string): Result<Effect, ParserError> {
    if d == "rule" then RuleArgs(arg)
    else if d == "matrix-off" then MatrixOffArgs(arg)
    else if d == "https-strict" then MatrixFlagArgs(d, arg)
    else Success(NoChange)
  }

  /** `r.split(":", 1)` read as directive and argument (see `DirectiveSelection`). */
  function SplitDirective(r: string): (string, string) {
    var (directive, line) := if ':' in r then (Before(r, ':'), After(r, ':')) else ("rule", r);
    (Strip(Lower(directive)), Strip(line))
  }

  /** What one raw line of rule text does. */
  function ParseLine(raw: string): Result<Effect, ParserError> {
    var r := Strip(Before(raw, '#'));
    if r == "" then Success(NoChange)
    else
      var (d, arg) := SplitDirective(r);
      Convert(d, Strip(arg))
  }

  /** Where parsing a sequence of lines ends: the first error, if any, and the
      tables as they stand then (lines before the error stay applied). */
  datatype Outcome = Outcome(err: Option<ParserError>, tables: Tables)

  /** One converter call: an error leaves the tables as they were. */
  function Step(res: Result<Effect, ParserError>, t: Tables): Outcome {
    match res
    case Failure(e) => Outcome(Some(e), t)
    case Success(eff) => Outcome(None, Apply(eff, t))
  }

  function Run(lines: seq<string>, t: Tables): Outcome
    decreases |lines|
  {
    if lines == [] then Outcome(None, t)
    else
      var step := Step(ParseLine(lines[0]), t);
      if step.err.Some? then step else Run(lines[1..], step.tables)
  }

  /** `_rule_converter`: pads the fields, checks the action and the type, then
      writes one cell. */
  method RuleConverter(d: string, r: string, rules: Rules) returns (err: Option<ParserError>)
    modifies rules
    ensures Outcome(err, rules.Snapshot()) == Step(RuleArgs(r), old(rules.Snapshot()))
  {
    var splitRules := Split(r);
    if !(2 <= |splitRules| <= 4) {
      return Some(ParserError(FieldCount, r));
    }
    ghost var fields := splitRules;
    if |splitRules| < 3 {
      splitRules := splitRules + ["*"];
    }
    if |splitRules| < 4 {
      splitRules := splitRules + ["allow"];
    }
    assert splitRules == Padded(fields);
    var sourceHostname, destHostname, rqType, action :=
      splitRules[0], splitRules[1], splitRules[2], splitRules[3];
    var actionValue := ActionFromName(Upper(action));
    assert actionValue == ParseAction(action);
    if actionValue.None? {
      assert RuleArgs(r) == Failure(ParserError(BadAction, r));
      return Some(ParserError(BadAction, r));
    }
    var rqName := Upper(rqType);
    if rqName == "*" {
      rqName := "ALL";
    } else if rqName == "PLUGIN" {
      rqName := "MEDIA";
    }
    var requestType := TypeFromName(rqName);
    assert requestType == ParseType(rqType);
    if requestType.None? {
      assert RuleArgs(r) == Failure(ParserError(BadRequestType, r));
      return Some(ParserError(BadRequestType, r));
    }
    ghost var cell := SetCell(sourceHostname, destHostname, requestType.value, actionValue.value);
    assert RuleArgs(r) == Success(cell);
    ghost var before := rules.Snapshot();
    rules.matrixRules :=
      WriteCell(rules.matrixRules, sourceHostname, destHostname, requestType.value, actionValue.value);
    assert rules.Snapshot() == Apply(cell, before);
    err := None;
  }

  /** `_matrix_off_converter`: adds the flag named by the state token. */
  method MatrixOffConverter(d: string, r: string, rules: Rules) returns (err: Option<ParserError>)
    modifies rules
    ensures Outcome(err, rules.Snapshot()) == Step(MatrixOffArgs(r), old(rules.Snapshot()))
  {
    var splitRules := Split(r);
    if |splitRules| != 2 {
      return Some(ParserError(FieldCount, r));
    }
    var sourceHostname, state := splitRules[0], splitRules[1];
    var stateVal := FlagFromName(Upper(state));
    if stateVal.None? {
      return Some(ParserError(BadBoolean, r));
    }
    rules.matrixFlags := AddFlag(rules.matrixFlags, sourceHostname, stateVal.value);
    err := None;
  }

  /** `_matrix_flag_converter`: adds the flag named by the directive itself. */
  method MatrixFlagConverter(d: string, r: string, rules: Rules) returns (err: Option<ParserError>)
    modifies rules
    ensures Outcome(err, rules.Snapshot()) == Step(MatrixFlagArgs(d, r), old(rules.Snapshot()))
  {
    var splitRules := Split(r);
    if |splitRules| != 2 {
      return Some(ParserError(FieldCount, r));
    }
    var sourceHostname := splitRules[0];
    var directive := ReplaceChar(Upper(d), '-', '_');
    var flagVal := FlagFromName(directive);
    if flagVal.None? {
      return Some(ParserError(BadBoolean, r));
    }
    rules.matrixFlags := AddFlag(rules.matrixFlags, sourceHostname, flagVal.value);
    err := None;
  }

  /** `rules_to_map`: applies the lines in order and stops at the first error,
      which it reports; the lines before it stay applied. */
  method RulesToMap(ruleLines: seq<string>, rules: Rules) returns (err: Option<ParserError>)
    modifies rules
    ensures Outcome(err, rules.Snapshot()) == Run(ruleLines, old(rules.Snapshot()))
  {
    var i := 0;
    while i < |ruleLines|
      invariant 0 <= i <= |ruleLines|
      invariant Run(ruleLines, old(rules.Snapshot())) == Run(ruleLines[i..], rules.Snapshot())
    {
      assert ruleLines[i..][1..] == ruleLines[i + 1..];
      ghost var before := rules.Snapshot();
      ghost var parsed := ParseLine(ruleLines[i]);
      var r := Strip(Before(ruleLines[i], '#'));
      if r == "" {
        assert parsed == Success(NoChange);
        i := i + 1;
        continue;
      }
      var directive, line;
      if ':' in r {
        directive, line := Before(r, ':'), After(r, ':');
      } else {
        directive, line := "rule", r;
      }
      directive := Strip(Lower(directive));
      line := Strip(line);
      assert (directive, line) == SplitDirective(r);
      assert parsed == Convert(directive, Strip(line));
      if directive == "rule" {
        err := RuleConverter(directive, Strip(line), rules);
      } else if directive == "matrix-off" {
        err := MatrixOffConverter(directive, Strip(line), rules);
      } else if directive == "https-strict" {
        err := MatrixFlagConverter(directive, Strip(line), rules);
      } else {
        // an unknown directive is reported and skipped
        err := None;
      }
      assert Outcome(err, rules.Snapshot()) == Step(parsed, before);
      if err.Some? {
        return;
      }
      i := i + 1;
    }
    err := None;
  }

  // Properties of the parser.

  /** Running two blocks of lines is running the first, then, unless it
      stopped at an error, the second from where the first left the tables. */
  lemma {:induction false} RunConcat(a: seq<string>, b: seq<string>, t: Tables)
    ensures Run(a + b, t) == (var o := Run(a, t); if o.err.Some? then o else Run(b, o.tables))
    decreases |a|
  {
    if a != [] {
      assert (a + b)[0] == a[0];
      assert (a + b)[1..] == a[1..] + b;
      var step := Step(ParseLine(a[0]), t);
      if step.err.None? {
        RunConcat(a[1..], b, step.tables);
      }
    } else {
      assert a + b == b;
    }
  }

  /** A line that parses to no change can be dropped from any rule text. */
  lemma NoChangeLineDropped(pre: seq<string>, raw: string, post: seq<string>, t: Tables)
    requires ParseLine(raw) == Success(NoChange)
    ensures Run(pre + [raw] + post, t) == Run(pre + post, t)
  {
    RunConcat(pre + [raw], post, t);
    RunConcat(pre, [raw], t);
    RunConcat(pre, post, t);
  }

  /** Text from the first `#` on is a comment and is discarded. */
  lemma CommentDiscarded(raw: string)
    ensures ParseLine(raw) == ParseLine(Before(raw, '#'))
  {
    BeforeAbsent(Before(raw, '#'), '#');
  }

  /** A line that is blank once its comment is cut off changes nothing and
      raises nothing, wherever it stands. */
  lemma BlankLineSkipped(pre: seq<string>, raw: string, post: seq<string>, t: Tables)
    requires Strip(Before(raw, '#')) == ""
    ensures Run(pre + [raw] + post, t) == Run(pre + post, t)
  {
    NoChangeLineDropped(pre, raw, post, t);
  }

  /** With no `:` the line is a `rule` line and all of it is the argument;
      otherwise the directive is the text before the first `:`, lower-cased
      and stripped, and the argument is the text after it, stripped. */
  lemma DirectiveSelection(r: string)
    ensures ':' !in r ==> SplitDirective(r) == ("rule", Strip(r))
    ensures ':' in r ==> exists k | 0 <= k < |r| ::
      r[k] == ':' && ':' !in r[..k] && SplitDirective(r) == (Strip(Lower(r[..k])), Strip(r[k + 1..]))
  {
    if ':' !in r {
      assert Lower("rule") == "rule";
      StripUnchanged("rule");
    } else {
      var k := |Before(r, ':')|;
      assert r[..k] == Before(r, ':');
      assert r == Before(r, ':') + [':'] + After(r, ':');
      assert r[k + 1..] == After(r, ':');
    }
  }

  /** A directive other than `rule`, `matrix-off` and `https-strict` is
      skipped: the line changes nothing and raises nothing. */
  lemma UnknownDirectiveSkipped(pre: seq<string>, raw: string, post: seq<string>, t: Tables)
    requires Strip(Before(raw, '#')) != ""
    requires SplitDirective(Strip(Before(raw, '#'))).0 !in {"rule", "matrix-off", "https-strict"}
    ensures Run(pre + [raw] + post, t) == Run(pre + post, t)
  {
    NoChangeLineDropped(pre, raw, post, t);
  }

  /** A single line is a single step. */
  lemma RunOne(raw: string, t: Tables)
    ensures Run([raw], t) == Step(ParseLine(raw), t)
  {
    assert [raw][0] == raw && [raw][1..] == [];
  }

  /** The first line that raises an error stops the run there: that error is
      reported and the lines before it stay applied. */
  lemma ErrorStopsRun(pre: seq<string>, raw: string, post: seq<string>, t: Tables)
    requires Run(pre, t).err.None? && ParseLine(raw).Failure?
    ensures Run(pre + [raw] + post, t) == Outcome(Some(ParseLine(raw).error), Run(pre, t).tables)
  {
    var mid := Run(pre, t).tables;
    RunOne(raw, mid);
    RunConcat(pre, [raw], t);
    RunConcat(pre + [raw], post, t);
  }

  /** A `rule` argument is refused for its field count exactly when it does
      not have two to four fields. */
  lemma RuleFieldCount(r: string)
    ensures RuleArgs(r) == Failure(ParserError(FieldCount, r)) <==> !(2 <= |Split(r)| <= 4)
  {
    var fields := Split(r);
    if 2 <= |fields| <= 4 {
      var full := Padded(fields);
      if ParseAction(full[3]).None? {
        assert RuleArgs(r) == Failure(ParserError(BadAction, r));
      } else if ParseType(full[2]).None? {
        assert RuleArgs(r) == Failure(ParserError(BadRequestType, r));
      } else {
        assert RuleArgs(r).Success?;
      }
    }
  }

  lemma AllowToken()
    ensures ParseAction("allow") == Some(Allow)
  {
    UpperIs("allow", "ALLOW");
    ActionNames("ALLOW", Allow);
  }

  lemma StarToken()
    ensures ParseType("*") == Some(All)
  {
    UpperIs("*", "*");
    TypeNames("ALL", All);
  }

  /** Two fields: any request type, action `allow`. */
  lemma RuleTwoFields(r: string)
    requires |Split(r)| == 2
    ensures RuleArgs(r) == Success(SetCell(Split(r)[0], Split(r)[1], All, Allow))
  {
    AllowToken();
    StarToken();
  }

  /** Three fields: action `allow`, and the third field must name a type. */
  lemma RuleThreeFields(r: string)
    requires |Split(r)| == 3
    ensures ParseType(Split(r)[2]).None? ==> RuleArgs(r) == Failure(ParserError(BadRequestType, r))
    ensures ParseType(Split(r)[2]).Some? ==>
      RuleArgs(r) == Success(SetCell(Split(r)[0], Split(r)[1], ParseType(Split(r)[2]).value, Allow))
  {
    AllowToken();
  }

  /** Two white-space-free words separated by one white-space character
      allow everything from the first to the second. */
  lemma RuleTwoWords(a: string, c: char, b: string)
    requires a != [] && NoSpace(a) && b != [] && NoSpace(b) && IsSpace(c)
    ensures RuleArgs(a + ([c] + b)) == Success(SetCell(a, b, All, Allow))
  {
    SplitTwo(a, c, b);
    RuleTwoFields(a + ([c] + b));
  }

  /** `* *` allows everything from everywhere to everywhere. */
  lemma RuleStarStar()
    ensures RuleArgs("* *") == Success(SetCell("*", "*", All, Allow))
  {
    assert "* *" == "*" + ([' '] + "*");
    RuleTwoWords("*", ' ', "*");
  }

  /** A type token names `t`: its upper-case form is `t`'s name, or `*` for
      `All`, or `PLUGIN` for `Media`. */
  predicate NamesType(token: string, t: Type) {
    var u := Upper(token);
    u == TypeName(t) || (u == "*" && t == All) || (u == "PLUGIN" && t == Media)
  }

  lemma ParseActionSpec(token: string, a: Action)
    ensures ParseAction(token) == Some(a) <==> Upper(token) == ActionName(a)
  {
    ActionNames(Upper(token), a);
  }

  lemma ParseTypeSpec(token: string, t: Type)
    ensures ParseType(token) == Some(t) <==> NamesType(token, t)
  {
    var u := Upper(token);
    var name := if u == "*" then "ALL" else if u == "PLUGIN" then "MEDIA" else u;
    TypeNames(name, t);
    assert TypeName(t) != "*" && TypeName(t) != "PLUGIN";
  }

  /** Action and type tokens are read case-insensitively. */
  lemma TokensCaseInsensitive(token: string)
    ensures ParseAction(Lower(token)) == ParseAction(token) == ParseAction(Upper(token))
    ensures ParseType(Lower(token)) == ParseType(token) == ParseType(Upper(token))
  {
    UpperOfLower(token);
    UpperIdempotent(token);
  }

  /** A `rule` argument writes the cell (s, d, t) with action a exactly when it
      has two to four fields, the first two are s and d, and the padded type
      and action tokens name t and a. */
  lemma RuleArgsSpec(r: string, s: string, d: string, t: Type, a: Action)
    ensures RuleArgs(r) == Success(SetCell(s, d, t, a)) <==>
      2 <= |Split(r)| <= 4 && Split(r)[0] == s && Split(r)[1] == d &&
      NamesType(Padded(Split(r))[2], t) && Upper(Padded(Split(r))[3]) == ActionName(a)
  {
    if 2 <= |Split(r)| <= 4 {
      var full := Padded(Split(r));
      ParseActionSpec(full[3], a);
      ParseTypeSpec(full[2], t);
    }
  }

  /** Effect e sets cell (s, d, u). */
  predicate SetsCell(e: Effect, s: string, d: string, u: Type) {
    e.SetCell? && e.source == s && e.dest == d && e.rqType == u
  }

  /** Effect e adds a flag to host h. */
  predicate AddsFlag(e: Effect, h: string) {
    e.AddFlagTo? && e.host == h
  }

  /** The line sets cell (s, d, u). */
  predicate WritesCell(res: Result<Effect, ParserError>, s: string, d: string, u: Type) {
    res.Success? && SetsCell(res.value, s, d, u)
  }

  /** The line adds a flag to host h. */
  predicate FlagsHost(res: Result<Effect, ParserError>, h: string) {
    res.Success? && AddsFlag(res.value, h)
  }

  /** One converter call changes at most the one cell it names. */
  lemma StepCell(res: Result<Effect, ParserError>, t: Tables, s: string, d: string, u: Type)
    ensures Lookup(Step(res, t).tables.matrix, s, d, u) ==
      if WritesCell(res, s, d, u) then res.value.action else Lookup(t.matrix, s, d, u)
  {
  }

  /** One converter call adds a flag to at most the one host it names. */
  lemma StepFlags(res: Result<Effect, ParserError>, t: Tables, h: string)
    ensures FlagsOf(Step(res, t).tables.flags, h) ==
      if FlagsHost(res, h) then FlagsOf(t.flags, h) + {res.value.flag} else FlagsOf(t.flags, h)
  {
  }

  /** A line that sets a cell changes that one cell and nothing else. */
  lemma RuleLineWritesOneCell(pre: seq<string>, raw: string, t: Tables,
                              s: string, d: string, u: Type, a: Action)
    requires Run(pre, t).err.None? && ParseLine(raw) == Success(SetCell(s, d, u, a))
    ensures var before := Run(pre, t).tables;
      var after := Run(pre + [raw], t);
      after.err.None? && after.tables.flags == before.flags &&
      forall s', d', u' :: Lookup(after.tables.matrix, s', d', u') ==
        if s' == s && d' == d && u' == u then a else Lookup(before.matrix, s', d', u')
  {
    var before := Run(pre, t).tables;
    RunOne(raw, before);
    RunConcat(pre, [raw], t);
    forall s', d', u'
      ensures Lookup(Run(pre + [raw], t).tables.matrix, s', d', u') ==
        if s' == s && d' == d && u' == u then a else Lookup(before.matrix, s', d', u')
    {
      StepCell(ParseLine(raw), before, s', d', u');
    }
  }

  /** Two lines are run one after the other, unless the first raises. */
  lemma RunTwo(l1: string, l2: string, t: Tables)
    ensures var first := Step(ParseLine(l1), t);
      Run([l1, l2], t) == if first.err.Some? then first else Run([l2], first.tables)
  {
    assert [l1, l2][0] == l1 && [l1, l2][1..] == [l2];
  }

  /** Of two lines that set the same cell, the later one wins. */
  lemma LaterLineOverwrites(l1: string, l2: string, t: Tables,
                            s: string, d: string, u: Type, a1: Action, a2: Action)
    requires ParseLine(l1) == Success(SetCell(s, d, u, a1))
    requires ParseLine(l2) == Success(SetCell(s, d, u, a2))
    ensures Run([l1, l2], t).err.None? && Lookup(Run([l1, l2], t).tables.matrix, s, d, u) == a2
  {
    var first := Step(ParseLine(l1), t);
    RunTwo(l1, l2, t);
    RunOne(l2, first.tables);
    StepCell(ParseLine(l2), first.tables, s, d, u);
  }

  /** A cell no line sets keeps what it read before, error or not. */
  lemma {:induction false} UnwrittenCellUnchanged(lines: seq<string>, t: Tables, s: string, d: string, u: Type)
    requires forall i | 0 <= i < |lines| :: !WritesCell(ParseLine(lines[i]), s, d, u)
    ensures Lookup(Run(lines, t).tables.matrix, s, d, u) == Lookup(t.matrix, s, d, u)
    decreases |lines|
  {
    if lines != [] {
      var res := ParseLine(lines[0]);
      assert !WritesCell(res, s, d, u);
      StepCell(res, t, s, d, u);
      if res.Success? {
        UnwrittenCellUnchanged(lines[1..], Step(res, t).tables, s, d, u);
      }
    }
  }

  /** A host no line flags keeps its flags, error or not. */
  lemma {:induction false} UnflaggedHostUnchanged(lines: seq<string>, t: Tables, h: string)
    requires forall i | 0 <= i < |lines| :: !FlagsHost(ParseLine(lines[i]), h)
    ensures FlagsOf(Run(lines, t).tables.flags, h) == FlagsOf(t.flags, h)
    decreases |lines|
  {
    if lines != [] {
      var res := ParseLine(lines[0]);
      assert !FlagsHost(res, h);
      StepFlags(res, t, h);
      if res.Success? {
        UnflaggedHostUnchanged(lines[1..], Step(res, t).tables, h);
      }
    }
  }

  /** Parsing into a fresh container: a cell no line sets reads `Inherit`
      and a host no line flags has no flags. */
  lemma FreshUnmentioned(lines: seq<string>, s: string, d: string, u: Type, h: string)
    requires forall i | 0 <= i < |lines| :: !WritesCell(ParseLine(lines[i]), s, d, u)
    requires forall i | 0 <= i < |lines| :: !FlagsHost(ParseLine(lines[i]), h)
    ensures Lookup(Run(lines, Tables(map[], map[])).tables.matrix, s, d, u) == Inherit
    ensures FlagsOf(Run(lines, Tables(map[], map[])).tables.flags, h) == {}
  {
    UnwrittenCellUnchanged(lines, Tables(map[], map[]), s, d, u);
    UnflaggedHostUnchanged(lines, Tables(map[], map[]), h);
  }

  /** `matrix-off` adds flag f to host h exactly when the argument has two
      fields, the first is h and the second names f in any case. */
  lemma MatrixOffSpec(r: string, h: string, f: Flag)
    ensures MatrixOffArgs(r) == Success(AddFlagTo(h, f)) <==>
      |Split(r)| == 2 && Split(r)[0] == h && Upper(Split(r)[1]) == FlagName(f)
  {
    if |Split(r)| == 2 {
      FlagNames(Upper(Split(r)[1]), f);
    }
  }

  /** `matrix-off` is refused exactly when the field count is not two or the
      state does not name a flag. */
  lemma MatrixOffErrors(r: string)
    ensures MatrixOffArgs(r).Failure? <==>
      |Split(r)| != 2 || forall f: Flag :: Upper(Split(r)[1]) != FlagName(f)
  {
    if |Split(r)| == 2 {
      FlagNameUnknown(Upper(Split(r)[1]));
    }
  }

  lemma HttpsStrictName()
    ensures FlagFromName(ReplaceChar(Upper("https-strict"), '-', '_')) == Some(HttpsStrict)
  {
    UpperReplace("https-strict", '-', '_', "HTTPS_STRICT");
    FlagNames("HTTPS_STRICT", HttpsStrict);
  }

  /** `https-strict` needs two fields and always adds `HttpsStrict` to the
      host; the state token is never looked at. */
  lemma HttpsStrictIgnoresState(r: string)
    ensures MatrixFlagArgs("https-strict", r) ==
      if |Split(r)| == 2 then Success(AddFlagTo(Split(r)[0], HttpsStrict))
      else Failure(ParserError(FieldCount, r))
  {
    HttpsStrictName();
  }

  // Lines in the canonical form rule text is written in.

  /** A field of rule text: non-empty, with no white space and no `#`. */
  predicate Word(w: string) {
    w != [] && NoSpace(w) && '#' !in w
  }

  /** A directive name as rule text writes it: a lower-case word with no `:`. */
  predicate DirectiveWord(d: string) {
    Word(d) && ':' !in d && forall i | 0 <= i < |d| :: !('A' <= d[i] <= 'Z')
  }

  /** A directive line of words has no comment to cut and nothing to strip. */
  lemma DirectiveTextStripped(d: string, a: string, b: string)
    requires Word(d) && Word(a) && Word(b)
    ensures Strip(Before(DirectiveText(d, a, b), '#')) == DirectiveText(d, a, b)
  {
    var line := DirectiveText(d, a, b);
    assert '#' !in line;
    BeforeAbsent(line, '#');
    assert line[0] == d[0] && line[|line| - 1] == b[|b| - 1];
    StripUnchanged(line);
  }

  /** A directive line of words splits into its directive and its argument. */
  lemma DirectiveTextSplit(d: string, a: string, b: string)
    requires DirectiveWord(d) && Word(a) && Word(b)
    ensures SplitDirective(DirectiveText(d, a, b)) == (d, a + ([' '] + b))
  {
    var arg := a + ([' '] + b);
    var rest := [' '] + arg;
    assert DirectiveText(d, a, b) == d + [':'] + rest;
    BeforeAfterAt(d, ':', rest);
    LowerFixed(d);
    StripUnchanged(d);
    StripLeadingSpace(' ', arg);
    assert arg[0] == a[0] && arg[|arg| - 1] == b[|b| - 1];
    StripUnchanged(arg);
  }

  /** `d: a b` for a directive word and two argument words is handed to
      directive `d` with argument `a b`. */
  lemma DirectiveLine(d: string, a: string, b: string)
    requires DirectiveWord(d)
    requires Word(a) && Word(b)
    ensures ParseLine(DirectiveText(d, a, b)) == Convert(d, a + ([' '] + b))
  {
    var arg := a + ([' '] + b);
    DirectiveTextStripped(d, a, b);
    DirectiveTextSplit(d, a, b);
    assert arg[0] == a[0] && arg[|arg| - 1] == b[|b| - 1];
    StripUnchanged(arg);
  }

  /** A line of words with no `:` is a `rule` line, whole. */
  lemma RuleLine(r: string)
    requires r != [] && '#' !in r && ':' !in r && !IsSpace(r[0]) && !IsSpace(r[|r| - 1])
    ensures ParseLine(r) == RuleArgs(r)
  {
    BeforeAbsent(r, '#');
    StripUnchanged(r);
    DirectiveSelection(r);
  }

  /** The fields of `[x] + g`. */
  lemma Prepend(f: seq<string>, x: string, g: seq<string>)
    requires f == [x] + g
    ensures |f| == |g| + 1 && f[0] == x && forall i | 0 <= i < |g| :: f[i + 1] == g[i]
  {
  }

  /** `b c e`: three fields. */
  lemma SplitThree(b: string, c: string, e: string)
    requires Word(b) && Word(c) && Word(e)
    ensures var f := Split(b + ([' '] + (c + ([' '] + e))));
      |f| == 3 && f[0] == b && f[1] == c && f[2] == e
  {
    var x := c + ([' '] + e);
    SplitTwo(c, ' ', e);
    SplitSpaced(b, ' ', x);
    Prepend(Split(b + ([' '] + x)), b, Split(x));
  }

  /** `a b c e`: four fields. */
  lemma SplitFour(a: string, b: string, c: string, e: string)
    requires Word(a) && Word(b) && Word(c) && Word(e)
    ensures var f := Split(RuleText(a, b, c, e));
      |f| == 4 && f[0] == a && f[1] == b && f[2] == c && f[3] == e
  {
    var y := b + ([' '] + (c + ([' '] + e)));
    SplitThree(b, c, e);
    SplitSpaced(a, ' ', y);
    Prepend(Split(RuleText(a, b, c, e)), a, Split(y));
  }

  /** Four fields that name a type and an action set that cell. */
  lemma RuleFourFields(r: string, u: Type, act: Action)
    requires |Split(r)| == 4
    requires ParseType(Split(r)[2]) == Some(u) && ParseAction(Split(r)[3]) == Some(act)
    ensures RuleArgs(r) == Success(SetCell(Split(r)[0], Split(r)[1], u, act))
  {
    var full := Padded(Split(r));
    assert full[2] == Split(r)[2] && full[3] == Split(r)[3];
  }

  /** Rule text of words is a `rule` line, whole. */
  lemma RuleTextIsRule(a: string, b: string, c: string, e: string)
    requires Word(a) && Word(b) && Word(c) && Word(e)
    requires ':' !in a && ':' !in b && ':' !in c && ':' !in e
    ensures ParseLine(RuleText(a, b, c, e)) == RuleArgs(RuleText(a, b, c, e))
  {
    var r := RuleText(a, b, c, e);
    assert r[0] == a[0] && r[|r| - 1] == e[|e| - 1];
    assert '#' !in r && ':' !in r;
    RuleLine(r);
  }

  /** The four words of rule text name the cell and its action. */
  lemma RuleTextArgs(a: string, b: string, c: string, e: string, u: Type, act: Action)
    requires Word(a) && Word(b) && Word(c) && Word(e)
    requires ParseType(c) == Some(u) && ParseAction(e) == Some(act)
    ensures RuleArgs(RuleText(a, b, c, e)) == Success(SetCell(a, b, u, act))
  {
    SplitFour(a, b, c, e);
    RuleFourFields(RuleText(a, b, c, e), u, act);
  }

  /** A four-field rule line sets the cell its fields name. */
  lemma FourFieldRule(a: string, b: string, c: string, e: string, u: Type, act: Action)
    requires Word(a) && Word(b) && Word(c) && Word(e)
    requires ':' !in a && ':' !in b && ':' !in c && ':' !in e
    requires ParseType(c) == Some(u) && ParseAction(e) == Some(act)
    ensures ParseLine(RuleText(a, b, c, e)) == Success(SetCell(a, b, u, act))
  {
    RuleTextIsRule(a, b, c, e);
    RuleTextArgs(a, b, c, e, u, act);
  }

  /** A `matrix-off` argument of a host word and a state word naming flag `f`,
      separated by any white-space character (a tab as well as a space). */
  lemma MatrixOffWords(h: string, c: char, state: string, f: Flag)
    requires Word(h) && Word(state) && IsSpace(c) && Upper(state) == FlagName(f)
    ensures MatrixOffArgs(h + ([c] + state)) == Success(AddFlagTo(h, f))
  {
    SplitTwo(h, c, state);
    FlagNames(FlagName(f), f);
  }

  /** An `https-strict` argument of two words separated by white space. */
  lemma HttpsStrictWords(h: string, c: char, state: string)
    requires Word(h) && Word(state) && IsSpace(c)
    ensures MatrixFlagArgs("https-strict", h + ([c] + state)) == Success(AddFlagTo(h, HttpsStrict))
  {
    SplitTwo(h, c, state);
    HttpsStrictIgnoresState(h + ([c] + state));
  }

  /** The effects applied in order. */
  function ApplyAll(effects: seq<Effect>, t: Tables): Tables
    decreases |effects|
  {
    if effects == [] then t else ApplyAll(effects[1..], Apply(effects[0], t))
  }

  /** Parsing lines that all succeed applies their effects in order. */
  lemma {:induction false} RunAllSucceed(lines: seq<string>, effects: seq<Effect>, t: Tables)
    requires |lines| == |effects|
    requires forall i | 0 <= i < |lines| :: ParseLine(lines[i]) == Success(effects[i])
    ensures Run(lines, t) == Outcome(None, ApplyAll(effects, t))
    decreases |lines|
  {
    if lines != [] {
      assert ParseLine(lines[0]) == Success(effects[0]);
      RunAllSucceed(lines[1..], effects[1..], Apply(effects[0], t));
    }
  }

  /** A cell no effect sets keeps its value. */
  lemma {:induction false} ApplyAllUnwritten(effects: seq<Effect>, t: Tables, s: string, d: string, u: Type)
    requires forall k | 0 <= k < |effects| :: !SetsCell(effects[k], s, d, u)
    ensures Lookup(ApplyAll(effects, t).matrix, s, d, u) == Lookup(t.matrix, s, d, u)
    decreases |effects|
  {
    if effects != [] {
      assert !SetsCell(effects[0], s, d, u);
      StepCell(Success(effects[0]), t, s, d, u);
      ApplyAllUnwritten(effects[1..], Apply(effects[0], t), s, d, u);
    }
  }

  /** The last effect that sets a cell decides it. */
  lemma {:induction false} ApplyAllLastWrite(effects: seq<Effect>, t: Tables, s: string, d: string, u: Type, k: nat)
    requires k < |effects| && SetsCell(effects[k], s, d, u)
    requires forall j | k < j < |effects| :: !SetsCell(effects[j], s, d, u)
    ensures Lookup(ApplyAll(effects, t).matrix, s, d, u) == effects[k].action
    decreases k
  {
    var next := Apply(effects[0], t);
    if k == 0 {
      StepCell(Success(effects[0]), t, s, d, u);
      ApplyAllUnwritten(effects[1..], next, s, d, u);
    } else {
      ApplyAllLastWrite(effects[1..], next, s, d, u, k - 1);
    }
  }

  /** The flags the effects add to host h. */
  function FlagsAdded(effects: seq<Effect>, h: string): set<Flag> {
    set k | 0 <= k < |effects| && AddsFlag(effects[k], h) :: effects[k].flag
  }

  /** Flags accumulate: a host ends with the flags it had and every flag an
      effect adds to it. */
  lemma {:induction false} ApplyAllFlags(effects: seq<Effect>, t: Tables, h: string)
    ensures FlagsOf(ApplyAll(effects, t).flags, h) == FlagsOf(t.flags, h) + FlagsAdded(effects, h)
    decreases |effects|
  {
    if effects != [] {
      var e := effects[0];
      var rest := effects[1..];
      StepFlags(Success(e), t, h);
      ApplyAllFlags(rest, Apply(e, t), h);
      var first := if AddsFlag(e, h) then {e.flag} else {};
      forall f
        ensures f in FlagsAdded(effects, h) <==> f in first + FlagsAdded(rest, h)
      {
        if f in FlagsAdded(effects, h) {
          var k :| 0 <= k < |effects| && AddsFlag(effects[k], h) && effects[k].flag == f;
          if k > 0 {
            assert rest[k - 1] == effects[k];
          }
        }
        if f in FlagsAdded(rest, h) {
          var k :| 0 <= k < |rest| && AddsFlag(rest[k], h) && rest[k].flag == f;
          assert effects[k + 1] == rest[k];
        }
      }
    }
  }
}
