/** The few Python string primitives the rule parser and the matcher use:
    `str.isspace`, `str.strip()`, `str.split()` with no separator,
    `str.split(c, 1)`, `str.partition(c)`, and ASCII `upper`/`lower`. */
module Text {

  /** Python's `str.isspace` for one character: the ASCII separators and the
      Unicode white-space code points. */
  predicate IsSpace(c: char) {
    var n := c as int;
    (9 <= n <= 13) || (28 <= n <= 32) || n == 0x85 || n == 0xA0 || n == 0x1680
    || (0x2000 <= n <= 0x200A) || n == 0x2028 || n == 0x2029 || n == 0x202F
    || n == 0x205F || n == 0x3000
  }

  predicate NoSpace(s: string) {
    forall i | 0 <= i < |s| :: !IsSpace(s[i])
  }

  /** Index of the first occurrence of `c` in `s`, or `|s|` when there is none. */
  function FirstIndex(s: string, c: char): (k: nat)
    ensures k <= |s|
    ensures k < |s| ==> s[k] == c
    ensures forall i | 0 <= i < k :: s[i] != c
    ensures k == |s| <==> c !in s
  {
    if s == [] then 0
    else if s[0] == c then 0
    else 1 + FirstIndex(s[1..], c)
  }

  /** Index of the first white-space character of `s`, or `|s|`. */
  function FirstSpace(s: string): (k: nat)
    ensures k <= |s|
    ensures k < |s| ==> IsSpace(s[k])
    ensures NoSpace(s[..k])
  {
    if s == [] then 0
    else if IsSpace(s[0]) then 0
    else 1 + FirstSpace(s[1..])
  }

  /** `s.split(c, 1)[0]`: the text before the first `c`, or all of `s`. */
  function Before(s: string, c: char): (r: string)
    ensures c !in r
    ensures r <= s
    ensures c !in s ==> r == s
    ensures c in s ==> s[|r|] == c
  {
    s[..FirstIndex(s, c)]
  }

  /** `s.partition(c)[-1]`: the text after the first `c`, or "" when there is none. */
  function After(s: string, c: char): (r: string)
    ensures c !in s ==> r == ""
    ensures c in s ==> s == Before(s, c) + [c] + r
    ensures |r| < |s| || s == ""
  {
    var k := FirstIndex(s, c);
    if k < |s| then s[k + 1..] else ""
  }

  /** `s.lstrip()` */
  function TrimStart(s: string): (r: string)
    ensures r == [] || !IsSpace(r[0])
    ensures |r| <= |s| && r == s[|s| - |r|..]
    ensures forall i | 0 <= i < |s| - |r| :: IsSpace(s[i])
  {
    if s != [] && IsSpace(s[0]) then TrimStart(s[1..]) else s
  }

  /** `s.rstrip()` */
  function TrimEnd(s: string): (r: string)
    ensures r == [] || !IsSpace(r[|r| - 1])
    ensures r <= s
    ensures forall i | |r| <= i < |s| :: IsSpace(s[i])
  {
    if s != [] && IsSpace(s[|s| - 1]) then TrimEnd(s[..|s| - 1]) else s
  }

  /** `s.strip()` */
  function Strip(s: string): (r: string)
    ensures r == [] || (!IsSpace(r[0]) && !IsSpace(r[|r| - 1]))
  {
    TrimEnd(TrimStart(s))
  }

  /** Every character of `s` is white space. */
  predicate AllSpace(s: string) {
    forall k | 0 <= k < |s| :: IsSpace(s[k])
  }

  lemma TrimStartSplit(s: string)
    ensures var t := TrimStart(s); var p := s[..|s| - |t|]; AllSpace(p) && s == p + t
  {
    var t := TrimStart(s);
    assert s == s[..|s| - |t|] + s[|s| - |t|..];
  }

  lemma TrimEndSplit(t: string)
    ensures var u := TrimEnd(t); var q := t[|u|..]; AllSpace(q) && t == u + q
  {
    var u := TrimEnd(t);
    assert t == t[..|u|] + t[|u|..];
  }

  /** `s` is `r` with the white space `p` before it and `q` after it. */
  predicate Padded(s: string, r: string, p: string, q: string) {
    AllSpace(p) && AllSpace(q) && s == p + r + q
  }

  lemma PaddedJoin(s: string, t: string, r: string, p: string, q: string)
    requires AllSpace(p) && AllSpace(q) && s == p + t && t == r + q
    ensures Padded(s, r, p, q)
  {
    assert p + (r + q) == p + r + q;
  }

  lemma StripPadding(s: string)
    ensures Padded(s, Strip(s), s[..|s| - |TrimStart(s)|], TrimStart(s)[|Strip(s)|..])
  {
    var t := TrimStart(s);
    var u := TrimEnd(t);
    TrimStartSplit(s);
    TrimEndSplit(t);
    PaddedJoin(s, t, u, s[..|s| - |t|], t[|u|..]);
  }

  /** `Strip` removes a run of white space from each end of its input and
      keeps everything between. */
  lemma StripRemovesSurroundingSpace(s: string)
    ensures exists p, q :: Padded(s, Strip(s), p, q)
  {
    StripPadding(s);
  }

  /** `s.split()`: the maximal runs of non-white-space characters, in order. */
  function Split(s: string): (r: seq<string>)
    decreases |s|
  {
    var t := TrimStart(s);
    if t == [] then []
    else
      var k := FirstSpace(t);
      [t[..k]] + Split(t[k..])
  }

  function UpperChar(c: char): char {
    if 'a' <= c <= 'z' then (c as int - 32) as char else c
  }

  function LowerChar(c: char): char {
    if 'A' <= c <= 'Z' then (c as int + 32) as char else c
  }

  /** `s.upper()` on ASCII letters. */
  function Upper(s: string): (r: string)
    ensures |r| == |s|
  {
    if s == [] then [] else [UpperChar(s[0])] + Upper(s[1..])
  }

  /** `s.lower()` on ASCII letters. */
  function Lower(s: string): (r: string)
    ensures |r| == |s|
  {
    if s == [] then [] else [LowerChar(s[0])] + Lower(s[1..])
  }

  /** `s.replace(a, b)` for single characters. */
  function ReplaceChar(s: string, a: char, b: char): (r: string)
    ensures |r| == |s|
  {
    if s == [] then [] else [if s[0] == a then b else s[0]] + ReplaceChar(s[1..], a, b)
  }

  /** `text` read as a file, one line at a time, with the `\n` terminators
      dropped (the parser strips them anyway). */
  function Lines(text: string): (r: seq<string>)
    ensures forall i | 0 <= i < |r| :: '\n' !in r[i]
    decreases |text|
  {
    if '\n' !in text then (if text == "" then [] else [text])
    else [Before(text, '\n')] + Lines(After(text, '\n'))
  }

  // Lemmas that let a proof take a literal line apart without unfolding the
  // functions above character by character.

  lemma BeforeAfterAt(a: string, c: char, b: string)
    requires c !in a
    ensures Before(a + [c] + b, c) == a
    ensures After(a + [c] + b, c) == b
  {
    var s := a + [c] + b;
    var k := FirstIndex(s, c);
    assert s[|a|] == c;
  }

  lemma BeforeAbsent(s: string, c: char)
    requires c !in s
    ensures Before(s, c) == s
  {
  }

  lemma {:induction false} LinesCons(l: string, rest: string)
    requires '\n' !in l
    ensures Lines(l + "\n" + rest) == [l] + Lines(rest)
  {
    BeforeAfterAt(l, '\n', rest);
    assert '\n' in l + "\n" + rest by {
      assert (l + "\n" + rest)[|l|] == '\n';
    }
  }

  lemma {:induction false} StripUnchanged(s: string)
    requires s == [] || (!IsSpace(s[0]) && !IsSpace(s[|s| - 1]))
    ensures Strip(s) == s
  {
  }

  lemma {:induction false} StripIdempotent(s: string)
    ensures Strip(Strip(s)) == Strip(s)
  {
    var r := Strip(s);
    StripUnchanged(r);
  }

  lemma {:induction false} StripLeadingSpace(c: char, s: string)
    requires IsSpace(c)
    ensures Strip([c] + s) == Strip(s)
  {
    assert ([c] + s)[1..] == s;
  }

  lemma {:induction false} SplitLeadingSpace(c: char, s: string)
    requires IsSpace(c)
    ensures Split([c] + s) == Split(s)
  {
    assert ([c] + s)[1..] == s;
    assert TrimStart([c] + s) == TrimStart(s);
    SplitSameTrim([c] + s, s);
  }

  lemma SplitSameTrim(a: string, b: string)
    requires TrimStart(a) == TrimStart(b)
    ensures Split(a) == Split(b)
  {
  }

  lemma {:induction false} FirstSpaceAt(w: string, rest: string)
    requires NoSpace(w)
    requires rest == [] || IsSpace(rest[0])
    ensures FirstSpace(w + rest) == |w|
    decreases |w|
  {
    if w != [] {
      assert (w + rest)[1..] == w[1..] + rest;
      FirstSpaceAt(w[1..], rest);
    }
  }

  lemma {:induction false} SplitWord(w: string, rest: string)
    requires w != [] && NoSpace(w)
    requires rest == [] || IsSpace(rest[0])
    ensures Split(w + rest) == [w] + Split(rest)
  {
    var t := w + rest;
    assert TrimStart(t) == t;
    FirstSpaceAt(w, rest);
    assert t[..|w|] == w;
    assert t[|w|..] == rest;
  }

  lemma SplitOneWord(w: string)
    requires w != [] && NoSpace(w)
    ensures Split(w) == [w]
  {
    SplitWord(w, "");
    assert w + "" == w;
  }

  /** A white-space-free word, one white-space character, then the rest:
      the word is the first field. */
  lemma SplitSpaced(a: string, c: char, x: string)
    requires a != [] && NoSpace(a) && IsSpace(c)
    ensures Split(a + ([c] + x)) == [a] + Split(x)
  {
    SplitWord(a, [c] + x);
    SplitLeadingSpace(c, x);
  }

  /** `"a b".split() == ["a", "b"]` for two white-space-free words and any
      one white-space separator `c`. */
  lemma SplitTwo(a: string, c: char, b: string)
    requires a != [] && NoSpace(a) && b != [] && NoSpace(b) && IsSpace(c)
    ensures |Split(a + ([c] + b))| == 2 && Split(a + ([c] + b))[0] == a && Split(a + ([c] + b))[1] == b
  {
    SplitSpaced(a, c, b);
    SplitOneWord(b);
    assert Split(a + ([c] + b)) == [a] + [b];
  }

  /** Every field `Split` yields is a non-empty run of non-white-space characters. */
  lemma {:induction false} SplitFields(s: string)
    ensures forall i | 0 <= i < |Split(s)| :: Split(s)[i] != "" && NoSpace(Split(s)[i])
    decreases |s|
  {
    var t := TrimStart(s);
    if t != [] {
      var k := FirstSpace(t);
      var rest := Split(t[k..]);
      SplitFields(t[k..]);
      assert Split(s) == [t[..k]] + rest;
      assert k > 0;
      forall i | 0 <= i < |Split(s)|
        ensures Split(s)[i] != "" && NoSpace(Split(s)[i])
      {
        if i > 0 {
          assert Split(s)[i] == rest[i - 1];
        }
      }
    }
  }

  lemma {:induction false} UpperAt(s: string, i: nat)
    requires i < |s|
    ensures Upper(s)[i] == UpperChar(s[i])
    decreases |s|
  {
    if i > 0 {
      UpperAt(s[1..], i - 1);
    }
  }

  lemma {:induction false} ReplaceCharAt(s: string, a: char, b: char, i: nat)
    requires i < |s|
    ensures ReplaceChar(s, a, b)[i] == if s[i] == a then b else s[i]
    decreases i
  {
    if i > 0 {
      ReplaceCharAt(s[1..], a, b, i - 1);
    }
  }

  /** `s.upper()` character by character. */
  lemma UpperIs(s: string, n: string)
    requires |s| == |n|
    requires forall i | 0 <= i < |s| :: n[i] == UpperChar(s[i])
    ensures Upper(s) == n
  {
    forall i | 0 <= i < |s|
      ensures Upper(s)[i] == n[i]
    {
      UpperAt(s, i);
    }
  }

  /** Lower-casing leaves a string without capitals as it is. */
  lemma {:induction false} LowerFixed(s: string)
    requires forall i | 0 <= i < |s| :: !('A' <= s[i] <= 'Z')
    ensures Lower(s) == s
    decreases |s|
  {
    if s != [] {
      LowerFixed(s[1..]);
      assert s == [s[0]] + s[1..];
    }
  }

  /** `s.upper().replace(a, b)` character by character. */
  lemma UpperReplace(s: string, a: char, b: char, n: string)
    requires |s| == |n|
    requires forall i | 0 <= i < |s| :: n[i] == (if UpperChar(s[i]) == a then b else UpperChar(s[i]))
    ensures ReplaceChar(Upper(s), a, b) == n
  {
    var u := ReplaceChar(Upper(s), a, b);
    forall i | 0 <= i < |s|
      ensures u[i] == n[i]
    {
      UpperAt(s, i);
      ReplaceCharAt(Upper(s), a, b, i);
    }
  }

  /** Upper-casing twice changes nothing more. */
  lemma {:induction false} UpperIdempotent(s: string)
    ensures Upper(Upper(s)) == Upper(s)
    decreases |s|
  {
    if s != [] {
      UpperIdempotent(s[1..]);
      assert Upper(s)[1..] == Upper(s[1..]);
    }
  }

  /** Upper-casing ignores whether the ASCII letters were lower case first. */
  lemma {:induction false} UpperOfLower(s: string)
    ensures Upper(Lower(s)) == Upper(s)
    decreases |s|
  {
    if s != [] {
      UpperOfLower(s[1..]);
      assert Lower(s)[1..] == Lower(s[1..]);
    }
  }

  /** The lines of a text, each followed by a line break. */
  function JoinLines(lines: seq<string>): string
    decreases |lines|
  {
    if lines == [] then "" else lines[0] + "\n" + JoinLines(lines[1..])
  }

  /** Reading back lines that were written one per line gives them back. */
  lemma {:induction false} LinesJoin(lines: seq<string>)
    requires forall i | 0 <= i < |lines| :: '\n' !in lines[i]
    ensures Lines(JoinLines(lines)) == lines
    decreases |lines|
  {
    if lines != [] {
      LinesJoin(lines[1..]);
      LinesCons(lines[0], JoinLines(lines[1..]));
    }
  }
}
