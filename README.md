# jmatrix request filter, modelled in Dafny

jmatrix is a uMatrix-style request filter for qutebrowser. This project models
its three core pieces and proves properties of them:

- **the rule store** (`jmatrix/rule.py`): the `Action`, `Type` and `Flag`
  enums. `Rules` is a mutable container that holds two tables:
  - the permission matrix source host → destination host → request type →
    action, whose missing cells read as `INHERIT`;
  - the host → flag-set table.

  `DEFAULT_RULES` is the seed rule text.
- **the rule-text parser** (`jmatrix/ublock_parser.py`): `rules_to_map` handles
  the lines of a rule text one at a time. For each line it cuts the comment,
  splits the directive from its argument, and hands the argument to one of
  three converters (`rule`, `matrix-off`, `https-strict`). A converter either
  raises `JMatrixParserError` or writes into the container.
- **the matching engine** (`jmatrix/interceptor.py`):
  - `_hostname_widen_list` lists a host, its ancestors and `*`;
  - `should_block` first checks the matrix-off short-circuit, then scans every
    (context ancestor, request ancestor) pair. For each pair it looks at the
    exact-type cell, then at the `ALL` cell.

The model keeps the source's form:
- `Rules` is a `class` whose two fields the converter methods update.
- `rules_to_map`, the three converters, `_hostname_widen_list` and
  `should_block` are methods with the source's loops, early returns and
  `break`.
- Each method is proved equal to a specification function on values:
  - `ParseLine`, `Run` and `Apply` over `Tables` for the parser;
  - `Widen` for the widening loop;
  - `Decision` for the matcher.

  The lemmas are stated about those functions.

Modules:
- `Wrappers` holds `Option` and `Result`.
- `Text` models the Python string primitives the code calls: `split()`,
  `strip()`, `split(c, 1)`, `partition`, `upper`/`lower` and `replace`;
  `IsSpace` is the set of characters `split()` and `strip()` treat as white
  space.
- `Rule`, `UblockParser` and `Interceptor` follow the three source files.
- `DefaultRules` works out what parsing `DEFAULT_RULES` yields and the request
  policy that follows from it.

A parse error is a `ParserError` value with a reason: wrong field count, bad
action, bad request type, or bad boolean. `rules_to_map` returns the first
error and stops there. The source raises it out of the loop instead. The lines
before the error stay applied in both.

Where the code and its surroundings disagree, the model follows the code:

- **Trailing `*`.** `_hostname_widen_list` appends `*`, and the empty host
  widens to `["*"]` (jmatrix/interceptor.py:47). The widening tests expect no
  trailing `*` and `[]` for the empty host (tests/test_interceptor.py:22-28).
- **The matrix-off table.** `should_block` reads `rules.matrix_off_rules`
  (jmatrix/interceptor.py:59). `Rules` has no such attribute, so as written the
  call fails on every input. The model takes the matrix-off table as a separate
  `map<string, bool>` parameter, in which a missing host reads as false.
  `Interceptor.OffTable` derives that table from the flag table: `True` in a
  host's flags means the matrix is off (the comment at jmatrix/rule.py:80).
  This link is an assumption, not something the code does.
- **Precedence.** The comment at jmatrix/interceptor.py:64-67 says precedence
  runs context host, then destination host, then type, and that blacklists
  take precedence. The code has no most-specific-host-wins search and no
  carried override: any pair that says `BLOCK` blocks, even when a more
  specific pair allows (jmatrix/interceptor.py:71-97). So
  `* qutebrowser.bad * block` together with
  `qutebrowser.org qutebrowser.bad * allow` blocks `qutebrowser.bad` from
  `qutebrowser.org` (`Interceptor.QutebrowserOrgToBadBlocked`). A
  specificity-first reading of the uMatrix rules would allow it.
- **The flag shape.** The parser tests expect a `Flag.MATRIX_OFF` member and
  dict-valued flags (tests/test_parser.py:21-27). The code adds `Flag` members
  to a set (jmatrix/ublock_parser.py:63, 76), and the model does the same.

## Model

| member | source | states |
|---|---|---|
| Rule.ActionNames | jmatrix/rule.py:43-53 | looking up an action name gives exactly the `Action` member of that name |
| Rule.TypeNames | jmatrix/rule.py:55-70 | looking up a type name gives exactly the `Type` member of that name |
| Rule.FlagNames | jmatrix/rule.py:72-83 | looking up a flag name gives exactly the `Flag` member of that name |
| Rule.FlagNameUnknown | jmatrix/rule.py:72-83 | the lookup refuses a name exactly when no flag has that name |
| Rule.Lookup | jmatrix/rule.py:92-100 | a cell that was never written reads `INHERIT`; a written cell reads what was stored |
| Rule.WriteCell | jmatrix/ublock_parser.py:50 | after the write, the written cell reads the new action and every other (source, dest, type) cell reads as before |
| Rule.FlagsOf | jmatrix/rule.py:90 | a host never mentioned has the empty flag set |
| Rule.AddFlag | jmatrix/ublock_parser.py:63 | the flag joins that host's set, flags already there stay, and no other host changes |
| Rule.Rules.constructor | jmatrix/rule.py:89-100 | a fresh container has an empty flag table and an empty matrix |
| Text.Before | jmatrix/ublock_parser.py:91 | the text before the first separator: a prefix without the separator, which is all of the text when there is no separator |
| Text.After | jmatrix/interceptor.py:46 | the text after the first separator: the string is the part before it, the separator and this part; empty when there is no separator; strictly shorter than a non-empty input |
| Text.Strip | jmatrix/ublock_parser.py:91 | the result neither starts nor ends with white space |
| Text.StripRemovesSurroundingSpace | jmatrix/ublock_parser.py:91 | the input is the stripped line with only white space before and after it; with `Strip`'s own contract, exactly the surrounding white space is removed |
| Text.StripIdempotent | jmatrix/ublock_parser.py:101-102 | stripping twice is the same as stripping once |
| Text.SplitFields | jmatrix/ublock_parser.py:25 | every field of `split()` is non-empty and has no white space |
| Text.UpperOfLower | jmatrix/ublock_parser.py:34 | upper-casing ignores whether the letters were lower-cased first |
| Text.LinesJoin | jmatrix/integrations/qutebrowser.py:43-51 | a text written one line per line reads back as the same lines |
| UblockParser.RuleConverter | jmatrix/ublock_parser.py:24-50 | the converter's error and the container's new state are those of `RuleArgs`: a field-count, action or type error leaves the container unchanged, and success writes one cell |
| UblockParser.MatrixOffConverter | jmatrix/ublock_parser.py:52-63 | the error and new state are those of `MatrixOffArgs` |
| UblockParser.MatrixFlagConverter | jmatrix/ublock_parser.py:65-76 | the error and new state are those of `MatrixFlagArgs` |
| UblockParser.RulesToMap | jmatrix/ublock_parser.py:87-106 | the reported error and the container's new state are those of `Run` over the lines, from the old state |
| UblockParser.RunConcat | jmatrix/ublock_parser.py:89-106 | running two blocks of lines is running the first, then, unless it stopped at an error, the second |
| UblockParser.CommentDiscarded | jmatrix/ublock_parser.py:91 | everything from the first `#` on has no effect on what a line does |
| UblockParser.BlankLineSkipped | jmatrix/ublock_parser.py:92-93 | a line that is blank once the comment is cut can be dropped from any rule text without changing the outcome |
| UblockParser.NoChangeLineDropped | jmatrix/ublock_parser.py:89-106 | a line that changes nothing can be dropped from any rule text |
| UblockParser.DirectiveSelection | jmatrix/ublock_parser.py:94-102 | with no `:` the directive is `rule` and the whole stripped line is the argument; otherwise the directive is the text before the first `:`, lower-cased and stripped, and the argument is the stripped text after it |
| UblockParser.UnknownDirectiveSkipped | jmatrix/ublock_parser.py:103-104 | a directive other than `rule`, `matrix-off` and `https-strict` can be dropped from any rule text without changing the outcome |
| UblockParser.ErrorStopsRun | jmatrix/ublock_parser.py:106 | the first line that raises ends the run with its error; the lines before it stay applied and the lines after it are not read |
| UblockParser.RuleFieldCount | jmatrix/ublock_parser.py:25-27 | a `rule` argument is refused for its field count if and only if it does not have 2 to 4 fields |
| UblockParser.RuleTwoFields | jmatrix/ublock_parser.py:28-31 | two fields set the `ALL` cell of that pair to `ALLOW` |
| UblockParser.RuleThreeFields | jmatrix/ublock_parser.py:30-49 | three fields give action `ALLOW`; the third field must name a type, otherwise it is a request-type error |
| UblockParser.RuleTwoWords | jmatrix/ublock_parser.py:25-32 | two white-space-free words with one white-space character between them allow everything from the first host to the second |
| UblockParser.RuleStarStar | tests/test_parser.py:34 | `* *` sets `*`/`*`/`ALL` to `ALLOW` |
| UblockParser.ParseActionSpec | jmatrix/ublock_parser.py:33-38 | an action token gives action `a` if and only if its upper-case form is `a`'s name |
| UblockParser.ParseTypeSpec | jmatrix/ublock_parser.py:39-49 | a type token gives type `t` if and only if its upper-case form is `t`'s name, or `*` for `ALL`, or `PLUGIN` for `MEDIA` |
| UblockParser.TokensCaseInsensitive | jmatrix/ublock_parser.py:34-39 | the lower-case, given and upper-case forms of a token give the same action and the same type |
| UblockParser.RuleArgsSpec | jmatrix/ublock_parser.py:24-50 | a `rule` argument writes cell (s, d, t) with action a if and only if it has 2 to 4 fields, the first two are s and d, and the padded type and action tokens name t and a |
| UblockParser.FourFieldRule | jmatrix/ublock_parser.py:24-50 | a rule line of four words whose type and action tokens are valid sets the cell those words name |
| UblockParser.RuleLine | jmatrix/ublock_parser.py:98-100 | a line with no `:`, `#` or surrounding white space is a `rule` line whose argument is the whole line |
| UblockParser.DirectiveLine | jmatrix/ublock_parser.py:94-106 | the line `d: a b` is handed to converter `d` with argument `a b` |
| UblockParser.StepCell | jmatrix/ublock_parser.py:50 | one converter call changes at most the one cell it names, and to the action it names |
| UblockParser.StepFlags | jmatrix/ublock_parser.py:63 | one converter call adds at most one flag, to the one host it names |
| UblockParser.RuleLineWritesOneCell | jmatrix/ublock_parser.py:50 | after any prefix of lines, a line that sets a cell raises nothing, leaves the flag table as it was, changes that one cell, and leaves every other cell as it was |
| UblockParser.LaterLineOverwrites | jmatrix/ublock_parser.py:89-106 | of two lines that set the same cell, the later one decides it |
| UblockParser.UnwrittenCellUnchanged | jmatrix/ublock_parser.py:89-106 | a cell that no line sets keeps its value, whether the run ends in an error or not |
| UblockParser.UnflaggedHostUnchanged | jmatrix/ublock_parser.py:89-106 | a host that no line flags keeps its flags, whether the run ends in an error or not |
| UblockParser.FreshUnmentioned | jmatrix/rule.py:89-100 | parsed into a fresh container, a cell that no line sets reads `INHERIT` and a host that no line flags has no flags |
| UblockParser.MatrixOffSpec | jmatrix/ublock_parser.py:52-63 | `matrix-off` adds flag f to host h if and only if the argument has two fields, the first is h, and the second names f in any case |
| UblockParser.MatrixOffErrors | jmatrix/ublock_parser.py:53-62 | `matrix-off` is refused if and only if the field count is not two or the state names no flag |
| UblockParser.MatrixOffWords | tests/test_parser.py:23 | a host and a state separated by one white-space character, a tab included, add that flag to that host |
| UblockParser.HttpsStrictIgnoresState | jmatrix/ublock_parser.py:65-76 | `https-strict` with two fields always adds `HTTPS_STRICT` to the host, whatever the state says; any other field count is an error |
| UblockParser.HttpsStrictWords | jmatrix/ublock_parser.py:65-76 | `https-strict` with a host word, one white-space character and any state word adds `HTTPS_STRICT` to that host |
| UblockParser.RunAllSucceed | jmatrix/ublock_parser.py:89-106 | lines that all parse raise nothing, and their effects are applied in order |
| UblockParser.ApplyAllUnwritten | jmatrix/ublock_parser.py:50 | a cell that no effect sets keeps its value |
| UblockParser.ApplyAllLastWrite | jmatrix/ublock_parser.py:50 | the last effect that sets a cell decides its value |
| UblockParser.ApplyAllFlags | jmatrix/ublock_parser.py:63 | flags accumulate: a host ends with the flags it had plus every flag an effect adds to it |
| Interceptor.HostnameWidenList | jmatrix/interceptor.py:38-48 | the loop's list is `Widen(hostname)`: the ancestors, most specific first, then `*` |
| Interceptor.WidenShape | jmatrix/interceptor.py:38-48 | the widened list starts with the host (`["*"]` for the empty host) and ends with `*`; each next entry is what follows the first `.` of the one before, and is strictly shorter; nothing follows the first `.` of the last entry before `*`; every entry but `*` is a non-empty suffix of the host |
| Interceptor.AncestorsSuffixes | jmatrix/interceptor.py:44-46 | every ancestor is a non-empty suffix of the host |
| Interceptor.AncestorsChain | jmatrix/interceptor.py:44-46 | each ancestor is what follows the first `.` of the one before, and is strictly shorter |
| Interceptor.WidenEmpty | jmatrix/interceptor.py:43-48 | the empty host widens to `["*"]` |
| Interceptor.WidenThreeLabels | jmatrix/interceptor.py:39-41 | `a.b.com` widens to `a.b.com`, `b.com`, `com`, `*` |
| Interceptor.AnyOffExists | jmatrix/interceptor.py:58-60 | the `any` over the candidates holds if and only if some candidate is marked matrix-off |
| Interceptor.TypeScan | jmatrix/interceptor.py:81-94 | the scan over `[request_type, ALL]` returns the pair's verdict: the exact-type cell decides unless it is absent or `INHERIT`, in which case the `ALL` cell does |
| Interceptor.ScanRequests | jmatrix/interceptor.py:76-94 | for one context host, the scan reports `Blocked` if and only if some request host's pair blocks, and `Allowed` if and only if none blocks and some allows |
| Interceptor.ScanMatrix | jmatrix/interceptor.py:70-97 | the nested loops return `MatrixBlocks`: true if some pair blocks or no pair allows |
| Interceptor.ShouldBlock | jmatrix/interceptor.py:51-97 | `should_block` returns exactly `Decision` for the inputs |
| Interceptor.PairVerdictCases | jmatrix/interceptor.py:81-94 | a pair blocks if and only if its exact cell says `BLOCK`, or that cell is absent or `INHERIT` and the `ALL` cell says `BLOCK`; likewise for allow |
| Interceptor.NotBlockedExactly | jmatrix/interceptor.py:70-97 | the request gets through if and only if the matrix is off for the context, or no pair blocks and some pair allows |
| Interceptor.BlockWins | jmatrix/interceptor.py:86-87 | with the matrix on, any pair that blocks blocks the request, whatever other pairs allow |
| Interceptor.MatrixOffWins | jmatrix/interceptor.py:57-62 | a matrix-off mark on the context host, an ancestor, `*` or `<scheme>-scheme` lets every request through, whatever the matrix holds |
| Interceptor.DefaultDeny | jmatrix/interceptor.py:96-97 | with an empty matrix, a request is blocked if and only if the matrix is on for its context |
| Interceptor.InheritLikeAbsent | jmatrix/interceptor.py:82-85 | an `INHERIT` cell gives the same verdict as an absent one |
| Interceptor.ExactAllowShadows | jmatrix/interceptor.py:88-94 | an exact-type `ALLOW` stops the pair's check before its `ALL` cell, so an `ALL` `BLOCK` in the same pair does not block |
| Interceptor.OrderIndependent | jmatrix/interceptor.py:71-97 | the verdict does not depend on the order in which the widened lists are scanned |
| Interceptor.StarOffAllowsEverything | jmatrix/interceptor.py:57-62 | a matrix-off mark on `*` lets every request through |
| Interceptor.CssAllowedXhrBlocked | jmatrix/rule.py:35-36 | with `* * * block` and `* * css allow`, style sheets get through and XHR requests are blocked |
| Interceptor.GeneralBlockBeatsSpecificAllow | jmatrix/interceptor.py:67 | `* qutebrowser.bad * block` blocks `qutebrowser.bad` from every context, even with `qutebrowser.org qutebrowser.bad * allow` |
| Interceptor.QutebrowserOrgToBadBlocked | jmatrix/interceptor.py:67 | under those two rules, the request from `qutebrowser.org` to `qutebrowser.bad` is blocked |
| Interceptor.FirstPartyIsLiteral | jmatrix/interceptor.py:75 | `1st-party` is an ordinary key: with `* * * block` and `* 1st-party * allow`, every request is blocked unless the matrix is off |
| Interceptor.SchemeBypass | jmatrix/interceptor.py:57-62 | with `matrix-off: qute-scheme true`, a `qute` page loads anything; an `http` page whose host list does not contain `qute-scheme` stays under `* * * block` |
| Interceptor.OffTable | jmatrix/rule.py:80 | the derived matrix-off table marks a host if and only if `TRUE` is among its flags |
| Interceptor.MatrixOffFromFlags | jmatrix/rule.py:80 | through that table, the matrix is off for a context if and only if one of its candidates has the `TRUE` flag |
| DefaultRules.AllLines | jmatrix/rule.py:21-40 | each of the 20 lines of `DEFAULT_RULES` parses without error to the effect listed for it |
| DefaultRules.SpoofLines | jmatrix/rule.py:32-34 | the `noscript-spoof`/`referrer-spoof` lines change nothing |
| DefaultRules.DefaultLines | jmatrix/rule.py:21-41 | `DEFAULT_RULES`, read line by line, gives its 20 lines |
| DefaultRules.DefaultRun | jmatrix/rule.py:21-41 | parsing `DEFAULT_RULES` raises nothing and applies its effects in order |
| DefaultRules.DefaultEffectsCells | jmatrix/rule.py:35-40 | the rule lines set exactly the cells `DefaultCell` names, and every other cell keeps its value |
| DefaultRules.DefaultEffectsFlags | jmatrix/rule.py:22-34 | the directive lines add `TRUE` to the nine matrix-off hosts and `HTTPS_STRICT` to `behind-the-scene`, and nothing else |
| DefaultRules.DefaultRulesParsed | jmatrix/rule.py:21-41 | parsing `DEFAULT_RULES` into any container raises nothing, sets the default cells, adds the default flags, and leaves every other cell and flag as it was |
| DefaultRules.DefaultRulesFresh | jmatrix/rule.py:21-41 | into a fresh container: `*`/`*` has `ALL`=`BLOCK`, `CSS`=`ALLOW`, `FRAME`=`BLOCK`, `IMAGE`=`ALLOW`; `*`/`1st-party` has `ALL`=`ALLOW`, `FRAME`=`ALLOW`; every other cell reads `INHERIT`; the flags are exactly the default ones |
| DefaultRules.DefaultMatrixPolicy | jmatrix/rule.py:35-40 | under the default matrix, a request is blocked if and only if the matrix is on for its context and it is neither a style sheet nor an image |
| DefaultRules.DefaultMatrixOff | jmatrix/rule.py:23-31 | with the default flags as the matrix-off table, the matrix is off if and only if one of the context's candidates is a matrix-off host |
| DefaultRules.DefaultRulesDecision | jmatrix/rule.py:21-41 | starting from `DEFAULT_RULES`, a request is blocked if and only if no candidate of its context is a matrix-off host and it is neither a style sheet nor an image |

## Left out

- The qutebrowser integration (`jmatrix/integrations/qutebrowser.py`):
  interceptor registration, URL and resource-type translation, commands,
  reading and writing the rule file, and the global rule container.
- The serialiser `map_to_rules`, which the parser tests call, is not part of
  this model.
- First-party-domain computation, carried overrides and destination schemes.
  The engine does not implement them (jmatrix/interceptor.py:75). `1st-party`
  is an ordinary key.
- `_first_true` (jmatrix/interceptor.py:24-35) is unused.
- The `print` of an ignored directive (jmatrix/ublock_parser.py:104) is left
  out: output is not modelled.
- Auto-vivification. A read of a missing cell in the source's nested
  `defaultdict` stores an `INHERIT` cell. The model's `Lookup` reads without
  storing. The matcher's `.get` reads never store. A stored `INHERIT` cell and
  an absent one give the same verdict (`Interceptor.InheritLikeAbsent`).
- Text.Upper: Python's `upper`/`lower` map non-ASCII letters too. The model
  maps only ASCII letters, so a non-ASCII token that Python would upper-case
  into a member name is refused here.
- The matrix-off table is a parameter of `ShouldBlock`. The source reads an
  attribute that `Rules` does not define, and that read fails.
  `Interceptor.OffTable` is the assumed link to the flag table.
- Line endings. `DefaultRules.DefaultLines` reads `DEFAULT_RULES` as lines with
  the `\n` dropped. A file iterator keeps it, but the parser strips it anyway.
- The widening tests' expectations (no trailing `*`; `[]` for the empty host)
  are not met by the code, and the model follows the code.
- The benchmark test measures time only.
- `ScanRequests` and `TypeScan` are the inner loops of `should_block`,
  written as methods of their own. Their control flow (continue, early return,
  break) is the source's.
- `DEFAULT_RULES` is written in the model through `DirectiveText` and
  `RuleText`, with the same characters as the source.
- DefaultRules.DefaultRulesParsed is stated for any starting container. The
  fresh-container case is `DefaultRules.DefaultRulesFresh`.
