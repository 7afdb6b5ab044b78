/** The matching engine: hostname widening and the block/allow decision for one
    request, given the rule matrix and the matrix-off table. */
module Interceptor {
  import opened Text
  import opened Rule

  /** The hostnames `_hostname_widen_list` appends before its final `*`: the host
      itself, then whatever follows the first `.` of the previous one, until
      that is empty. */
  function Ancestors(hostname: string): seq<string>
    decreases |hostname|
  {
    if hostname == "" then [] else [hostname] + Ancestors(After(hostname, '.'))
  }

  /** The widened list: the ancestors, most specific first, then `*`. */
  function Widen(hostname: string): seq<string> {
    Ancestors(hostname) + ["*"]
  }

  /** `x` is a (not necessarily proper) suffix of `h`. */
  predicate IsSuffix(x: string, h: string) {
    |x| <= |h| && h[|h| - |x|..] == x
  }

  lemma {:induction false} SuffixTransitive(x: string, y: string, h: string)
    requires IsSuffix(x, y) && IsSuffix(y, h)
    ensures IsSuffix(x, h)
  {
    assert h[|h| - |x|..] == h[|h| - |y|..][|y| - |x|..];
  }

  /** What follows the first `.` of a host is a suffix of it. */
  lemma AfterDotSuffix(h: string)
    ensures IsSuffix(After(h, '.'), h)
  {
    var rest := After(h, '.');
    if '.' in h {
      assert h == Before(h, '.') + ['.'] + rest;
      assert h[|h| - |rest|..] == rest;
    }
  }

  /** Each ancestor is what follows the first `.` of the one before, and shorter. */
  lemma {:induction false} AncestorsChain(h: string)
    ensures var a := Ancestors(h);
      forall i | 0 <= i < |a| - 1 :: a[i + 1] == After(a[i], '.') && |a[i + 1]| < |a[i]|
    decreases |h|
  {
    if h != "" {
      var rest := After(h, '.');
      AncestorsChain(rest);
      assert Ancestors(h) == [h] + Ancestors(rest);
    }
  }

  /** The last ancestor has nothing after a `.`. */
  lemma {:induction false} AncestorsLast(h: string)
    ensures var a := Ancestors(h);
      (h == "" <==> a == []) && (h != "" ==> a[0] == h) &&
      (a != [] ==> After(a[|a| - 1], '.') == "")
    decreases |h|
  {
    if h != "" {
      AncestorsLast(After(h, '.'));
    }
  }

  /** Every ancestor is a non-empty suffix of the host. */
  lemma {:induction false} AncestorsSuffixes(h: string)
    ensures var a := Ancestors(h);
      forall i | 0 <= i < |a| :: a[i] != "" && IsSuffix(a[i], h)
    decreases |h|
  {
    if h != "" {
      var rest := After(h, '.');
      AncestorsSuffixes(rest);
      AfterDotSuffix(h);
      var a := Ancestors(h);
      assert a == [h] + Ancestors(rest);
      forall i | 0 <= i < |a|
        ensures a[i] != "" && IsSuffix(a[i], h)
      {
        if i > 0 {
          assert a[i] == Ancestors(rest)[i - 1];
          SuffixTransitive(a[i], rest, h);
        } else {
          assert h[|h| - |h|..] == h;
        }
      }
    }
  }

  /** The widened list of `h` starts with `h` itself (`*` for the empty host),
      each next entry is what follows the first `.` of the one before, it ends
      with `*`, and every entry but that `*` is a non-empty suffix of `h`. */
  lemma WidenShape(h: string)
    ensures var w := Widen(h);
      |w| >= 1 && w[|w| - 1] == "*" &&
      (h == "" ==> w == ["*"]) &&
      (h != "" ==> w[0] == h) &&
      (forall i | 0 <= i < |w| - 2 :: w[i + 1] == After(w[i], '.') && |w[i + 1]| < |w[i]|) &&
      (|w| >= 2 ==> After(w[|w| - 2], '.') == "") &&
      (forall i | 0 <= i < |w| - 1 :: w[i] != "" && IsSuffix(w[i], h))
  {
    var a := Ancestors(h);
    var w := Widen(h);
    assert |w| == |a| + 1 && w[|w| - 1] == "*";
    AncestorsLast(h);
    assert |w| >= 2 ==> w[|w| - 2] == a[|a| - 1];
    AncestorsChain(h);
    forall i | 0 <= i < |w| - 2
      ensures w[i + 1] == After(w[i], '.') && |w[i + 1]| < |w[i]|
    {
      assert w[i] == a[i] && w[i + 1] == a[i + 1];
    }
    AncestorsSuffixes(h);
    forall i | 0 <= i < |w| - 1
      ensures w[i] != "" && IsSuffix(w[i], h)
    {
      assert w[i] == a[i];
    }
  }

  /** One step of the widening loop: moving a host onto the list and going on
      with what follows its first `.` keeps the list plus the ancestors still
      to come equal to all ancestors. */
  lemma AncestorsStep(l: seq<string>, h: string, hostname: string)
    requires h != "" && l + Ancestors(h) == Ancestors(hostname)
    ensures (l + [h]) + Ancestors(After(h, '.')) == Ancestors(hostname)
  {
    var rest := Ancestors(After(h, '.'));
    assert Ancestors(h) == [h] + rest;
    assert (l + [h]) + rest == l + ([h] + rest);
  }

  /** `_hostname_widen_list` */
  method HostnameWidenList(hostname: string) returns (l: seq<string>)
    ensures l == Widen(hostname)
  {
    l := [];
    var h := hostname;
    assert l + Ancestors(h) == Ancestors(hostname);
    while h != ""
      invariant l + Ancestors(h) == Ancestors(hostname)
      decreases |h|
    {
      var rest := After(h, '.');
      AncestorsStep(l, h, hostname);
      l := l + [h];
      h := rest;
    }
    assert Ancestors(h) == [] && l + [] == l;
    assert l == Ancestors(hostname);
    l := l + ["*"];
  }

  /** `matrix_off_rules.get(host, False)` */
  predicate OffAt(matrixOffRules: map<string, bool>, host: string) {
    host in matrixOffRules && matrixOffRules[host]
  }

  /** The tokens whose matrix-off entry switches the matrix off for a context:
      its widened hostname and `<scheme>-scheme`. */
  function OffCandidates(contextHostname: string, contextScheme: string): seq<string> {
    Widen(contextHostname) + [contextScheme + "-scheme"]
  }

  /** `any(map(lambda h: matrix_off_rules.get(h, False), hosts))` */
  function AnyOff(matrixOffRules: map<string, bool>, hosts: seq<string>): bool {
    if hosts == [] then false else OffAt(matrixOffRules, hosts[0]) || AnyOff(matrixOffRules, hosts[1..])
  }

  lemma {:induction false} AnyOffExists(matrixOffRules: map<string, bool>, hosts: seq<string>)
    ensures AnyOff(matrixOffRules, hosts) <==> exists host | host in hosts :: OffAt(matrixOffRules, host)
  {
    if hosts != [] {
      AnyOffExists(matrixOffRules, hosts[1..]);
      if exists host | host in hosts :: OffAt(matrixOffRules, host) {
        var host :| host in hosts && OffAt(matrixOffRules, host);
        if host != hosts[0] {
          assert host in hosts[1..];
        }
      }
    }
  }

  /** The matrix is off for a context when its hostname, one of its ancestors,
      `*` or its scheme token is marked matrix-off. */
  predicate MatrixOff(matrixOffRules: map<string, bool>, contextHostname: string, contextScheme: string) {
    AnyOff(matrixOffRules, OffCandidates(contextHostname, contextScheme))
  }

  /** What one (context, request) hostname pair says about a request type. */
  datatype Verdict = Blocked | Allowed | NoRule

  /** `hostname_rules.get(t)`, with a missing type read as `Inherit`. */
  function CellAt(cells: map<Type, Action>, t: Type): Action {
    if t in cells then cells[t] else Inherit
  }

  /** The type -> action cells of one (context, request) pair; empty when absent. */
  function Cells(m: Matrix, context: string, request: string): map<Type, Action> {
    if context in m && request in m[context] then m[context][request] else map[]
  }

  /** The exact-type cell is looked at first, and the `All` cell only when the
      exact one is absent or `Inherit`. */
  function ActionsVerdict(exact: Action, any: Action): Verdict {
    if exact == Block then Blocked
    else if exact == Allow then Allowed
    else if any == Block then Blocked
    else if any == Allow then Allowed
    else NoRule
  }

  function CellsVerdict(cells: map<Type, Action>, t: Type): Verdict {
    ActionsVerdict(CellAt(cells, t), CellAt(cells, All))
  }

  /** A pair with no cells at all has no opinion. */
  lemma NoCells(m: Matrix, c: string, r: string, t: Type)
    requires c !in m || r !in m[c] || |m[c][r]| == 0
    ensures PairVerdict(m, c, r, t) == NoRule
  {
  }

  function PairVerdict(m: Matrix, context: string, request: string, t: Type): Verdict {
    CellsVerdict(Cells(m, context, request), t)
  }

  predicate SomePair(m: Matrix, contexts: seq<string>, requests: seq<string>, t: Type, v: Verdict) {
    exists c, r | c in contexts && r in requests :: PairVerdict(m, c, r, t) == v
  }

  /** The matrix verdict over two widened lists: any pair that blocks wins,
      otherwise some pair must allow, and with no opinion at all the request
      is blocked. */
  predicate MatrixBlocks(m: Matrix, contexts: seq<string>, requests: seq<string>, t: Type) {
    SomePair(m, contexts, requests, t, Blocked) || !SomePair(m, contexts, requests, t, Allowed)
  }

  /** Whether `should_block` blocks the request. */
  predicate Decision(m: Matrix, matrixOffRules: map<string, bool>, contextHostname: string,
                     contextScheme: string, requestHostname: string, t: Type)
  {
    !MatrixOff(matrixOffRules, contextHostname, contextScheme)
    && MatrixBlocks(m, Widen(contextHostname), Widen(requestHostname), t)
  }

  // The verdicts of the pairs the scan in ShouldBlock has visited, in order,
  // for its loop invariants.

  /** The verdicts of context host `c` with the first `j` request hosts. */
  function Row(m: Matrix, c: string, wr: seq<string>, t: Type, j: int): seq<Verdict>
    requires 0 <= j <= |wr|
  {
    if j == 0 then [] else Row(m, c, wr, t, j - 1) + [PairVerdict(m, c, wr[j - 1], t)]
  }

  /** The verdicts of the first `i` context hosts with every request host. */
  function Grid(m: Matrix, wc: seq<string>, wr: seq<string>, t: Type, i: int): seq<Verdict>
    requires 0 <= i <= |wc|
  {
    if i == 0 then [] else Grid(m, wc, wr, t, i - 1) + Row(m, wc[i - 1], wr, t, |wr|)
  }

  lemma RowStep(m: Matrix, c: string, wr: seq<string>, t: Type, j: int, v: Verdict)
    requires 0 <= j < |wr| && PairVerdict(m, c, wr[j], t) == v
    ensures Row(m, c, wr, t, j + 1) == Row(m, c, wr, t, j) + [v]
  {
  }

  lemma GridStep(m: Matrix, wc: seq<string>, wr: seq<string>, t: Type, i: int)
    requires 0 <= i < |wc|
    ensures Grid(m, wc, wr, t, i + 1) == Grid(m, wc, wr, t, i) + Row(m, wc[i], wr, t, |wr|)
  {
  }

  lemma {:induction false} RowMembers(m: Matrix, c: string, wr: seq<string>, t: Type, j: int, v: Verdict)
    requires 0 <= j <= |wr|
    ensures v in Row(m, c, wr, t, j) <==> exists j' | 0 <= j' < j :: PairVerdict(m, c, wr[j'], t) == v
  {
    if j > 0 {
      RowMembers(m, c, wr, t, j - 1, v);
      if PairVerdict(m, c, wr[j - 1], t) == v {
        assert v in Row(m, c, wr, t, j);
      }
    }
  }

  lemma {:induction false} GridMembers(m: Matrix, wc: seq<string>, wr: seq<string>, t: Type, i: int, v: Verdict)
    requires 0 <= i <= |wc|
    ensures v in Grid(m, wc, wr, t, i) <==>
      exists i', j' | 0 <= i' < i && 0 <= j' < |wr| :: PairVerdict(m, wc[i'], wr[j'], t) == v
  {
    if i > 0 {
      var prev := Grid(m, wc, wr, t, i - 1);
      var row := Row(m, wc[i - 1], wr, t, |wr|);
      assert Grid(m, wc, wr, t, i) == prev + row;
      GridMembers(m, wc, wr, t, i - 1, v);
      RowMembers(m, wc[i - 1], wr, t, |wr|, v);
      if v in prev + row {
        if v in prev {
          var i', j' :| 0 <= i' < i - 1 && 0 <= j' < |wr| && PairVerdict(m, wc[i'], wr[j'], t) == v;
        } else {
          var j' :| 0 <= j' < |wr| && PairVerdict(m, wc[i - 1], wr[j'], t) == v;
        }
      }
      if exists i', j' | 0 <= i' < i && 0 <= j' < |wr| :: PairVerdict(m, wc[i'], wr[j'], t) == v {
        var i', j' :| 0 <= i' < i && 0 <= j' < |wr| && PairVerdict(m, wc[i'], wr[j'], t) == v;
        if i' < i - 1 {
          assert v in prev;
        } else {
          assert v in row;
        }
      }
    }
  }

  /** Having visited every pair, the scan has seen a verdict exactly when some
      pair of hosts gives it. */
  lemma ScanDone(m: Matrix, wc: seq<string>, wr: seq<string>, t: Type, v: Verdict)
    ensures v in Grid(m, wc, wr, t, |wc|) <==> SomePair(m, wc, wr, t, v)
  {
    GridMembers(m, wc, wr, t, |wc|, v);
    if SomePair(m, wc, wr, t, v) {
      ScanFound(m, wc, wr, t, v);
    }
    if v in Grid(m, wc, wr, t, |wc|) {
      var i, j :| 0 <= i < |wc| && 0 <= j < |wr| && PairVerdict(m, wc[i], wr[j], t) == v;
      PairWitness(m, wc, wr, t, i, j);
    }
  }

  lemma ScanFound(m: Matrix, wc: seq<string>, wr: seq<string>, t: Type, v: Verdict)
    requires SomePair(m, wc, wr, t, v)
    ensures exists i, j | 0 <= i < |wc| && 0 <= j < |wr| :: PairVerdict(m, wc[i], wr[j], t) == v
  {
    var c, r :| c in wc && r in wr && PairVerdict(m, c, r, t) == v;
    var i :| 0 <= i < |wc| && wc[i] == c;
    var j :| 0 <= j < |wr| && wr[j] == r;
    assert PairVerdict(m, wc[i], wr[j], t) == v;
  }

  lemma PairWitness(m: Matrix, wc: seq<string>, wr: seq<string>, t: Type, i: int, j: int)
    requires 0 <= i < |wc| && 0 <= j < |wr|
    ensures SomePair(m, wc, wr, t, PairVerdict(m, wc[i], wr[j], t))
  {
    assert wc[i] in wc && wr[j] in wr;
  }

  /** A context host with no cells for any request host gives only `NoRule`. */
  lemma {:induction false} SilentRow(m: Matrix, c: string, wr: seq<string>, t: Type, j: int)
    requires 0 <= j <= |wr|
    requires c !in m || |m[c]| == 0
    ensures Blocked !in Row(m, c, wr, t, j) && Allowed !in Row(m, c, wr, t, j)
  {
    if j > 0 {
      SilentRow(m, c, wr, t, j - 1);
      NoCells(m, c, wr[j - 1], t);
    }
  }

  /** The inner loop of `should_block` over `[request_type, ALL]` for one pair:
      the first of the two cells that says `Block` or `Allow` decides. */
  method TypeScan(hostnameRules: map<Type, Action>, requestType: Type) returns (v: Verdict)
    ensures v == CellsVerdict(hostnameRules, requestType)
  {
    var types := [requestType, All];
    v := NoRule;
    for k := 0 to 2
      invariant forall k' | 0 <= k' < k :: CellAt(hostnameRules, types[k']) == Inherit
      invariant v == NoRule
    {
      var tc := types[k];
      if tc !in hostnameRules {
        continue;
      }
      var finalRule := hostnameRules[tc];
      assert k == 0 || CellAt(hostnameRules, types[0]) == Inherit;
      if finalRule == Block {
        return Blocked;
      } else if finalRule == Allow {
        v := Allowed;
        assert CellsVerdict(hostnameRules, requestType) == Allowed;
        break;
      }
    }
    assert v == NoRule ==> CellAt(hostnameRules, types[0]) == Inherit && CellAt(hostnameRules, types[1]) == Inherit;
  }

  /** The inner loop of `should_block` for one context host with cells:
      every request host in turn; a pair that blocks ends the scan at once,
      and a pair that allows is remembered. */
  method ScanRequests(m: Matrix, wc: string, wr: seq<string>, t: Type) returns (v: Verdict)
    requires wc in m
    ensures v == Blocked <==> Blocked in Row(m, wc, wr, t, |wr|)
    ensures v == Allowed <==> Blocked !in Row(m, wc, wr, t, |wr|) && Allowed in Row(m, wc, wr, t, |wr|)
  {
    var contextRules := m[wc];
    ghost var row: seq<Verdict> := [];
    v := NoRule;
    for j := 0 to |wr|
      invariant row == Row(m, wc, wr, t, j)
      invariant Blocked !in row && v != Blocked && (v == Allowed <==> Allowed in row)
    {
      var hc := wr[j];
      if hc !in contextRules || |contextRules[hc]| == 0 {
        NoCells(m, wc, hc, t);
        RowStep(m, wc, wr, t, j, NoRule);
        row := row + [NoRule];
        continue;
      }
      var hostnameRules := contextRules[hc];
      assert Cells(m, wc, hc) == hostnameRules;
      var verdict := TypeScan(hostnameRules, t);
      if verdict == Blocked {
        RowMembers(m, wc, wr, t, |wr|, Blocked);
        return Blocked;
      } else if verdict == Allowed {
        v := Allowed;
      }
      RowStep(m, wc, wr, t, j, verdict);
      row := row + [verdict];
    }
  }

  /** The pair scan of `should_block`: every context host (most specific
      first) against every request host; a pair that blocks returns at once,
      a pair that allows clears the default, and the default is to block. */
  method ScanMatrix(rules: Rules, widenedContext: seq<string>, widenedRequest: seq<string>,
                    requestType: Type)
    returns (blocked: bool)
    ensures blocked == MatrixBlocks(rules.matrixRules, widenedContext, widenedRequest, requestType)
  {
    var m := rules.matrixRules;
    ghost var seen: seq<Verdict> := [];
    blocked := true;
    for i := 0 to |widenedContext|
      invariant seen == Grid(m, widenedContext, widenedRequest, requestType, i)
      invariant Blocked !in seen && blocked == (Allowed !in seen)
    {
      var wc := widenedContext[i];
      GridStep(m, widenedContext, widenedRequest, requestType, i);
      if wc !in m || |m[wc]| == 0 {
        SilentRow(m, wc, widenedRequest, requestType, |widenedRequest|);
        seen := seen + Row(m, wc, widenedRequest, requestType, |widenedRequest|);
        continue;
      }
      var v := ScanRequests(m, wc, widenedRequest, requestType);
      if v == Blocked {
        RowMembers(m, wc, widenedRequest, requestType, |widenedRequest|, Blocked);
        var j :| 0 <= j < |widenedRequest| && PairVerdict(m, wc, widenedRequest[j], requestType) == Blocked;
        PairWitness(m, widenedContext, widenedRequest, requestType, i, j);
        return true;
      } else if v == Allowed {
        blocked := false;
      }
      seen := seen + Row(m, wc, widenedRequest, requestType, |widenedRequest|);
    }
    ScanDone(m, widenedContext, widenedRequest, requestType, Blocked);
    ScanDone(m, widenedContext, widenedRequest, requestType, Allowed);
  }

  /** `should_block`: true when the request is to be blocked. */
  method ShouldBlock(contextHostname: string, contextScheme: string, requestHostname: string,
                     requestType: Type, rules: Rules, matrixOffRules: map<string, bool>)
    returns (blocked: bool)
    ensures blocked == Decision(rules.matrixRules, matrixOffRules, contextHostname, contextScheme,
                                requestHostname, requestType)
  {
    var widenedContext := HostnameWidenList(contextHostname);
    var widenedRequest := HostnameWidenList(requestHostname);
    var scheme := contextScheme + "-scheme";
    if AnyOff(matrixOffRules, widenedContext + [scheme]) {
      return false;
    }
    blocked := ScanMatrix(rules, widenedContext, widenedRequest, requestType);
  }

  // Properties of the decision.

  /** A pair's verdict is read off its exact-type and `All` cells. */
  lemma PairVerdictLookup(m: Matrix, c: string, r: string, t: Type)
    ensures PairVerdict(m, c, r, t) == ActionsVerdict(Lookup(m, c, r, t), Lookup(m, c, r, All))
  {
  }

  /** The pair blocks: its exact cell says `Block`, or it is absent/`Inherit`
      and the `All` cell says `Block`. */
  predicate PairBlocks(m: Matrix, c: string, r: string, t: Type) {
    Lookup(m, c, r, t) == Block || (Lookup(m, c, r, t) == Inherit && Lookup(m, c, r, All) == Block)
  }

  predicate PairAllows(m: Matrix, c: string, r: string, t: Type) {
    Lookup(m, c, r, t) == Allow || (Lookup(m, c, r, t) == Inherit && Lookup(m, c, r, All) == Allow)
  }

  lemma PairVerdictCases(m: Matrix, c: string, r: string, t: Type)
    ensures PairVerdict(m, c, r, t) == Blocked <==> PairBlocks(m, c, r, t)
    ensures PairVerdict(m, c, r, t) == Allowed <==> PairAllows(m, c, r, t)
  {
    PairVerdictLookup(m, c, r, t);
  }

  /** The request gets through exactly when the matrix is off for the context,
      or no (context ancestor, request ancestor) pair blocks and some pair allows. */
  lemma NotBlockedExactly(m: Matrix, off: map<string, bool>, ch: string, cs: string, rh: string, t: Type)
    ensures !Decision(m, off, ch, cs, rh, t) <==>
      MatrixOff(off, ch, cs) ||
      ((forall c, r | c in Widen(ch) && r in Widen(rh) :: !PairBlocks(m, c, r, t)) &&
       (exists c, r | c in Widen(ch) && r in Widen(rh) :: PairAllows(m, c, r, t)))
  {
    forall c, r {
      PairVerdictCases(m, c, r, t);
    }
  }

  /** Any pair that blocks decides, whatever more specific pairs allow. */
  lemma BlockWins(m: Matrix, off: map<string, bool>, ch: string, cs: string, rh: string, t: Type,
                  c: string, r: string)
    requires !MatrixOff(off, ch, cs)
    requires c in Widen(ch) && r in Widen(rh) && PairBlocks(m, c, r, t)
    ensures Decision(m, off, ch, cs, rh, t)
  {
    PairVerdictCases(m, c, r, t);
  }

  /** A matrix-off mark on the context host, one of its ancestors, `*` or the
      context's scheme token lets every request through. */
  lemma MatrixOffWins(m: Matrix, off: map<string, bool>, ch: string, cs: string, rh: string, t: Type,
                      host: string)
    requires host in Widen(ch) + [cs + "-scheme"] && OffAt(off, host)
    ensures !Decision(m, off, ch, cs, rh, t)
  {
    AnyOffExists(off, OffCandidates(ch, cs));
  }

  /** With no cells at all, every request the matrix-off table does not let
      through is blocked. */
  lemma DefaultDeny(off: map<string, bool>, ch: string, cs: string, rh: string, t: Type)
    ensures Decision(map[], off, ch, cs, rh, t) == !MatrixOff(off, ch, cs)
  {
    if SomePair(map[], Widen(ch), Widen(rh), t, Allowed) {
      var c, r :| c in Widen(ch) && r in Widen(rh) && PairVerdict(map[], c, r, t) == Allowed;
      NoCells(map[], c, r, t);
    }
  }

  /** `Inherit` cells are skipped exactly like absent ones. */
  lemma InheritLikeAbsent(cells: map<Type, Action>, u: Type, t: Type)
    ensures CellsVerdict(cells[u := Inherit], t) == CellsVerdict(cells - {u}, t)
  {
  }

  /** Within one pair, an exact-type `Allow` ends the pair's check before its
      `All` cell, so an `All` `Block` there does not block the request. */
  lemma ExactAllowShadows(wc: seq<string>, wr: seq<string>, t: Type, c: string, r: string)
    requires t != All && c in wc && r in wr
    ensures !MatrixBlocks(WriteCell(WriteCell(map[], c, r, All, Block), c, r, t, Allow), wc, wr, t)
  {
    var m0 := WriteCell(map[], c, r, All, Block);
    var m := WriteCell(m0, c, r, t, Allow);
    forall c', r' | c' in wc && r' in wr
      ensures PairVerdict(m, c', r', t) != Blocked
    {
      PairVerdictLookup(m, c', r', t);
      if c' != c || r' != r {
        assert Lookup(m0, c', r', t) == Inherit;
      }
    }
    PairVerdictLookup(m, c, r, t);
  }

  /** The verdict does not depend on the order in which the widened lists are
      scanned. */
  lemma OrderIndependent(m: Matrix, wc: seq<string>, wr: seq<string>, wc': seq<string>, wr': seq<string>, t: Type)
    requires multiset(wc) == multiset(wc') && multiset(wr) == multiset(wr')
    ensures MatrixBlocks(m, wc, wr, t) == MatrixBlocks(m, wc', wr', t)
  {
    forall x
      ensures (x in wc <==> x in wc') && (x in wr <==> x in wr')
    {
      assert x in wc <==> x in multiset(wc);
      assert x in wc' <==> x in multiset(wc');
      assert x in wr <==> x in multiset(wr);
      assert x in wr' <==> x in multiset(wr');
    }
  }

  // Worked examples.

  lemma AncestorsDotted(a: string, b: string)
    requires a != "" && '.' !in a
    ensures Ancestors(a + "." + b) == [a + "." + b] + Ancestors(b)
  {
    BeforeAfterAt(a, '.', b);
  }

  lemma AncestorsLabel(w: string)
    requires w != "" && '.' !in w
    ensures Ancestors(w) == [w]
  {
  }

  /** The empty host widens to `*` alone. */
  lemma WidenEmpty()
    ensures Widen("") == ["*"]
  {
  }

  /** A three-label host such as `a.b.com` widens to itself, `b.com`, `com`
      and `*`. */
  lemma WidenThreeLabels(a: string, b: string, c: string)
    requires a != "" && '.' !in a && b != "" && '.' !in b && c != "" && '.' !in c
    ensures Widen(a + "." + (b + "." + c)) == [a + "." + (b + "." + c), b + "." + c, c, "*"]
  {
    var y := b + "." + c;
    var x := a + "." + y;
    assert Ancestors(y) == [y, c] by {
      AncestorsDotted(b, c);
      AncestorsLabel(c);
    }
    assert Ancestors(x) == [x, y, c] by {
      AncestorsDotted(a, y);
    }
  }

  lemma StarInWiden(h: string)
    ensures "*" in Widen(h)
  {
    assert Widen(h)[|Widen(h)| - 1] == "*";
  }

  /** `matrix-off: * true` turns the matrix off for every context. */
  lemma StarOffAllowsEverything(m: Matrix, ch: string, cs: string, rh: string, t: Type)
    ensures !Decision(m, map["*" := true], ch, cs, rh, t)
  {
    StarInWiden(ch);
    MatrixOffWins(m, map["*" := true], ch, cs, rh, t, "*");
  }

  /** `* * * block` with `* * css allow`: style sheets get through from any
      context to any host, XHR requests do not. */
  lemma CssAllowedXhrBlocked(off: map<string, bool>, ch: string, cs: string, rh: string)
    requires !MatrixOff(off, ch, cs)
    ensures var m := WriteCell(WriteCell(map[], "*", "*", All, Block), "*", "*", Css, Allow);
      !Decision(m, off, ch, cs, rh, Css) && Decision(m, off, ch, cs, rh, Xhr)
  {
    var m0 := WriteCell(map[], "*", "*", All, Block);
    var m := WriteCell(m0, "*", "*", Css, Allow);
    StarInWiden(ch);
    StarInWiden(rh);
    CssAllowedPairs(m0, Widen(ch), Widen(rh));
    PairVerdictLookup(m, "*", "*", Css);
    BlockWins(m, off, ch, cs, rh, Xhr, "*", "*");
  }

  lemma CssAllowedPairs(m0: Matrix, wc: seq<string>, wr: seq<string>)
    requires m0 == WriteCell(map[], "*", "*", All, Block)
    ensures var m := WriteCell(m0, "*", "*", Css, Allow);
      !SomePair(m, wc, wr, Css, Blocked)
  {
    var m := WriteCell(m0, "*", "*", Css, Allow);
    forall c, r | c in wc && r in wr
      ensures PairVerdict(m, c, r, Css) != Blocked
    {
      PairVerdictLookup(m, c, r, Css);
      if c != "*" || r != "*" {
        assert Lookup(m0, c, r, Css) == Inherit;
      }
    }
  }

  /** `* qutebrowser.bad * block` with `qutebrowser.org qutebrowser.bad * allow`:
      the request is blocked even from `qutebrowser.org` itself, because the
      pair (`*`, `qutebrowser.bad`) blocks and a blocking pair always wins. */
  lemma GeneralBlockBeatsSpecificAllow(off: map<string, bool>, ch: string, cs: string, rh: string, t: Type)
    requires !MatrixOff(off, ch, cs) && "qutebrowser.bad" in Widen(rh)
    ensures Decision(WriteCell(WriteCell(map[], "*", "qutebrowser.bad", All, Block),
                               "qutebrowser.org", "qutebrowser.bad", All, Allow),
                     off, ch, cs, rh, t)
  {
    var m0 := WriteCell(map[], "*", "qutebrowser.bad", All, Block);
    var m := WriteCell(m0, "qutebrowser.org", "qutebrowser.bad", All, Allow);
    StarInWiden(ch);
    assert Lookup(m0, "*", "qutebrowser.bad", t) == if t == All then Block else Inherit;
    BlockWins(m, off, ch, cs, rh, t, "*", "qutebrowser.bad");
  }

  lemma WidenHost(h: string)
    requires h != ""
    ensures h in Widen(h)
  {
    assert Widen(h)[0] == h;
  }

  /** The request host itself is among its widened hosts, so the example above
      applies to `qutebrowser.bad` requested from `qutebrowser.org`. */
  lemma QutebrowserOrgToBadBlocked(off: map<string, bool>, cs: string, t: Type)
    requires !MatrixOff(off, "qutebrowser.org", cs)
    ensures Decision(WriteCell(WriteCell(map[], "*", "qutebrowser.bad", All, Block),
                               "qutebrowser.org", "qutebrowser.bad", All, Allow),
                     off, "qutebrowser.org", cs, "qutebrowser.bad", t)
  {
    WidenHost("qutebrowser.bad");
    GeneralBlockBeatsSpecificAllow(off, "qutebrowser.org", cs, "qutebrowser.bad", t);
  }

  /** `1st-party` is an ordinary key: with `* * * block` and
      `* 1st-party * allow`, every request not let through by matrix-off is
      blocked, same first party or not. */
  lemma FirstPartyIsLiteral(off: map<string, bool>, ch: string, cs: string, rh: string, t: Type)
    requires !MatrixOff(off, ch, cs)
    ensures Decision(WriteCell(WriteCell(map[], "*", "*", All, Block), "*", "1st-party", All, Allow),
                     off, ch, cs, rh, t)
  {
    var m0 := WriteCell(map[], "*", "*", All, Block);
    var m := WriteCell(m0, "*", "1st-party", All, Allow);
    StarInWiden(ch);
    StarInWiden(rh);
    assert Lookup(m0, "*", "*", t) == if t == All then Block else Inherit;
    BlockWins(m, off, ch, cs, rh, t, "*", "*");
  }

  /** `* * * block` with `matrix-off: qute-scheme true`: a `qute` page loads
      anything; an `http` page on a host not itself marked is blocked. */
  lemma SchemeBypass(ch: string, rh: string, t: Type)
    ensures !Decision(WriteCell(map[], "*", "*", All, Block), map["qute-scheme" := true], ch, "qute", rh, t)
    ensures "qute-scheme" !in Widen(ch) ==>
      Decision(WriteCell(map[], "*", "*", All, Block), map["qute-scheme" := true], ch, "http", rh, t)
  {
    var m := WriteCell(map[], "*", "*", All, Block);
    var off := map["qute-scheme" := true];
    assert "qute" + "-scheme" == "qute-scheme";
    assert "qute-scheme" in Widen(ch) + ["qute" + "-scheme"];
    MatrixOffWins(m, off, ch, "qute", rh, t, "qute-scheme");
    if "qute-scheme" !in Widen(ch) {
      assert ("http" + "-scheme")[0] == 'h';
      AnyOffExists(off, OffCandidates(ch, "http"));
      assert !MatrixOff(off, ch, "http");
      StarInWiden(ch);
      StarInWiden(rh);
      assert Lookup(m, "*", "*", t) == if t == All then Block else Inherit;
      BlockWins(m, off, ch, "http", rh, t, "*", "*");
    }
  }

  // The matrix-off table and the flag table. The code reads a matrix-off
  // table that the rule container does not have; the link below is an
  // assumption, following the comment that `Flag.True` means "matrix off".

  /** The matrix-off table derived from the flags: true where `True` is set. */
  function OffTable(flags: FlagTable): (off: map<string, bool>)
    ensures forall h :: OffAt(off, h) <==> True in FlagsOf(flags, h)
  {
    map h | h in flags :: True in flags[h]
  }

  lemma MatrixOffFromFlags(flags: FlagTable, ch: string, cs: string)
    ensures MatrixOff(OffTable(flags), ch, cs) <==>
      exists h | h in OffCandidates(ch, cs) :: True in FlagsOf(flags, h)
  {
    AnyOffExists(OffTable(flags), OffCandidates(ch, cs));
  }
}
