/** The rule store: the uMatrix actions, request types and per-host flags, the
    permission matrix source -> destination -> type -> action whose missing
    cells read as `Inherit`, the host -> flag-set table, and the seed text. */
module Rule {
  import opened Wrappers
  import opened Text

  /** What a matrix cell says. `Inherit` means "no opinion, keep looking". */
  datatype Action = Block | Allow | Inherit

  /** A request type; `All` is the wildcard `*` column. */
  datatype Type = All | Cookie | Css | Image | Media | Script | Xhr | Frame | Other

  /** A per-host flag. `True` means the matrix is OFF for that host. */
  datatype Flag = True | False | HttpsStrict

  /** The enum member names, as `Action.__members__` keys them. */
  function ActionName(a: Action): string {
    match a
    case Block => "BLOCK"
    case Allow => "ALLOW"
    case Inherit => "INHERIT"
  }

  function TypeName(t: Type): string {
    match t
    case All => "ALL"
    case Cookie => "COOKIE"
    case Css => "CSS"
    case Image => "IMAGE"
    case Media => "MEDIA"
    case Script => "SCRIPT"
    case Xhr => "XHR"
    case Frame => "FRAME"
    case Other => "OTHER"
  }

  function FlagName(f: Flag): string {
    match f
    case True => "TRUE"
    case False => "FALSE"
    case HttpsStrict => "HTTPS_STRICT"
  }

  /** `Action.__members__.get(name)`: exactly the member so named, if any. */
  function ActionFromName(name: string): Option<Action>
  {
    if name == "BLOCK" then Some(Block)
    else if name == "ALLOW" then Some(Allow)
    else if name == "INHERIT" then Some(Inherit)
    else None
  }

  function TypeFromName(name: string): Option<Type>
  {
    if name == "ALL" then Some(All)
    else if name == "COOKIE" then Some(Cookie)
    else if name == "CSS" then Some(Css)
    else if name == "IMAGE" then Some(Image)
    else if name == "MEDIA" then Some(Media)
    else if name == "SCRIPT" then Some(Script)
    else if name == "XHR" then Some(Xhr)
    else if name == "FRAME" then Some(Frame)
    else if name == "OTHER" then Some(Other)
    else None
  }

  function FlagFromName(name: string): Option<Flag>
  {
    if name == "TRUE" then Some(True)
    else if name == "FALSE" then Some(False)
    else if name == "HTTPS_STRICT" then Some(HttpsStrict)
    else None
  }

  /** Looking a name up gives exactly the member of that name. */
  lemma ActionNames(name: string, a: Action)
    ensures ActionFromName(name) == Some(a) <==> ActionName(a) == name
  {
  }

  lemma TypeNames(name: string, t: Type)
    ensures TypeFromName(name) == Some(t) <==> TypeName(t) == name
  {
  }

  lemma FlagNames(name: string, f: Flag)
    ensures FlagFromName(name) == Some(f) <==> FlagName(f) == name
  {
  }

  /** A name that is no flag's name is refused. */
  lemma FlagNameUnknown(name: string)
    ensures FlagFromName(name).None? <==> forall f: Flag :: FlagName(f) != name
  {
    FlagNames(name, True);
    FlagNames(name, False);
    FlagNames(name, HttpsStrict);
  }

  /** source host -> destination host -> request type -> action */
  type Matrix = map<string, map<string, map<Type, Action>>>

  /** host (or `<scheme>-scheme` token) -> set of flags */
  type FlagTable = map<string, set<Flag>>

  /** Reading one cell; a cell that was never written reads as `Inherit`. */
  function Lookup(m: Matrix, source: string, dest: string, t: Type): (a: Action)
    ensures a != Inherit ==> source in m && dest in m[source] && t in m[source][dest]
    ensures source in m && dest in m[source] && t in m[source][dest] ==> a == m[source][dest][t]
  {
    if source in m && dest in m[source] && t in m[source][dest] then m[source][dest][t]
    else Inherit
  }

  /** `matrix_rules[source][dest][t] = a`: that one cell reads `a` afterwards and
      every other cell reads as before. */
  function WriteCell(m: Matrix, source: string, dest: string, t: Type, a: Action): (m': Matrix)
    ensures forall s, d, u ::
      Lookup(m', s, d, u) == if s == source && d == dest && u == t then a else Lookup(m, s, d, u)
    ensures m'.Keys == m.Keys + {source}
  {
    var row := if source in m then m[source] else map[];
    var cells := if dest in row then row[dest] else map[];
    m[source := row[dest := cells[t := a]]]
  }

  /** Reading the flags of a host; a host never mentioned has none. */
  function FlagsOf(f: FlagTable, host: string): (r: set<Flag>)
    ensures host !in f ==> r == {}
    ensures host in f ==> r == f[host]
  {
    if host in f then f[host] else {}
  }

  /** `matrix_flags[host].add(flag)`: the flag joins that host's set, flags
      already there stay, and no other host changes. */
  function AddFlag(f: FlagTable, host: string, flag: Flag): (f': FlagTable)
    ensures forall h :: FlagsOf(f', h) == if h == host then FlagsOf(f, h) + {flag} else FlagsOf(f, h)
  {
    f[host := FlagsOf(f, host) + {flag}]
  }

  /** The value held by a `Rules` object. */
  datatype Tables = Tables(matrix: Matrix, flags: FlagTable)

  /** The mutable rule container the parser fills in place. */
  class Rules {
    var matrixFlags: FlagTable
    var matrixRules: Matrix

    /** A fresh container holds no flags and no cells. */
    constructor ()
      ensures matrixFlags == map[] && matrixRules == map[]
    {
      matrixFlags := map[];
      matrixRules := map[];
    }

    function Snapshot(): Tables
      reads this
    {
      Tables(matrixRules, matrixFlags)
    }
  }

  /** The line `d: a b`. */
  function DirectiveText(d: string, a: string, b: string): string {
    d + ([':'] + ([' '] + (a + ([' '] + b))))
  }

  /** The line `s d t a`. */
  function RuleText(s: string, d: string, t: string, a: string): string {
    s + ([' '] + (d + ([' '] + (t + ([' '] + a)))))
  }

  /** The seed text a fresh rule file starts with, line by line: an empty
      line, then the flag lines, then the matrix rules. */
  const DEFAULT_RULE_LINES: seq<string> := [
    "",
    DirectiveText("https-strict", "behind-the-scene", "false"),
    DirectiveText("matrix-off", "about-scheme", "true"),
    DirectiveText("matrix-off", "behind-the-scene", "true"),
    DirectiveText("matrix-off", "chrome-extension-scheme", "true"),
    DirectiveText("matrix-off", "chrome-scheme", "true"),
    DirectiveText("matrix-off", "moz-extension-scheme", "true"),
    DirectiveText("matrix-off", "opera-scheme", "true"),
    DirectiveText("matrix-off", "vivaldi-scheme", "true"),
    DirectiveText("matrix-off", "wyciwyg-scheme", "true"),
    DirectiveText("matrix-off", "qute-scheme", "true"),
    DirectiveText("noscript-spoof", "*", "true"),
    DirectiveText("referrer-spoof", "*", "true"),
    DirectiveText("referrer-spoof", "behind-the-scene", "false"),
    RuleText("*", "*", "*", "block"),
    RuleText("*", "*", "css", "allow"),
    RuleText("*", "*", "frame", "block"),
    RuleText("*", "*", "image", "allow"),
    RuleText("*", "1st-party", "*", "allow"),
    RuleText("*", "1st-party", "frame", "allow")
  ]

  const DEFAULT_RULES: string := JoinLines(DEFAULT_RULE_LINES)
}
