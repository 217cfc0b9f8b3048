/** The two class-name rewrites applied to rendered HTML
    (src/generators/output/toString.js, lines 70-82).

    Each `String.replace` with a global regular expression is modelled as a
    left-to-right scanner, `Scan`, given the pattern's match at the start of
    a text. */
module Sanitizer {

  datatype Option<T> = None | Some(value: T)

  // ---------------------------------------------------------------------
  // A global replace

  /** `s.replace(re, fix)` for a global `re` whose match at the start of a
      text has length `m(text)`: where it matches, the match is rewritten
      and the scan resumes after it; elsewhere one character is copied.
      Both patterns below only match non-empty text within bounds
      (`HeadMatch`, `ClassMatch`), so the length test never fails for them. */
  function Scan(m: string -> Option<nat>, fix: string -> string, s: string): string
    decreases |s|
  {
    if s == [] then []
    else if m(s).Some? && 0 < m(s).value <= |s| then fix(s[..m(s).value]) + Scan(m, fix, s[m(s).value..])
    else [s[0]] + Scan(m, fix, s[1..])
  }

  /** One step at a match. */
  lemma ScanMatch(m: string -> Option<nat>, fix: string -> string, s: string, n: nat)
    requires m(s) == Some(n) && 0 < n <= |s|
    ensures Scan(m, fix, s) == fix(s[..n]) + Scan(m, fix, s[n..])
  {
  }

  /** One step where the pattern does not match. */
  lemma ScanCopy(m: string -> Option<nat>, fix: string -> string, s: string)
    requires s != [] && m(s).None?
    ensures Scan(m, fix, s) == [s[0]] + Scan(m, fix, s[1..])
  {
  }

  lemma PrefixStep(s: string, i: nat)
    requires 0 < i <= |s|
    ensures s[1..][i - 1..] == s[i..] && [s[0]] + s[1..][..i - 1] == s[..i]
  {
  }

  /** Where the pattern does not match, the text is copied. */
  lemma {:induction false} ScanCopiesPrefix(m: string -> Option<nat>, fix: string -> string, s: string, i: nat)
    requires i <= |s|
    requires forall j :: 0 <= j < i ==> m(s[j..]).None?
    ensures Scan(m, fix, s) == s[..i] + Scan(m, fix, s[i..])
    decreases i
  {
    if i > 0 {
      assert m(s).None? by {
        assert s[0..] == s;
      }
      ScanCopy(m, fix, s);
      assert forall j :: 0 <= j < i - 1 ==> m(s[1..][j..]).None? by {
        forall j | 0 <= j < i - 1 ensures m(s[1..][j..]).None? {
          assert s[1..][j..] == s[j + 1..];
        }
      }
      ScanCopiesPrefix(m, fix, s[1..], i - 1);
      PrefixStep(s, i);
    }
  }

  lemma SliceParts(s: string, i: nat, n: nat)
    requires i + n <= |s|
    ensures s[i..][..n] == s[i..i + n] && s[i..][n..] == s[i + n..]
  {
  }

  /** The first match, at `i`: the text before it is copied, the match is
      rewritten, and the scan goes on after it. */
  lemma ScanAt(m: string -> Option<nat>, fix: string -> string, s: string, i: nat, n: nat)
    requires i + n <= |s| && 0 < n
    requires forall j :: 0 <= j < i ==> m(s[j..]).None?
    requires m(s[i..]) == Some(n)
    ensures Scan(m, fix, s) == s[..i] + fix(s[i..i + n]) + Scan(m, fix, s[i + n..])
  {
    ScanCopiesPrefix(m, fix, s, i);
    ScanMatch(m, fix, s[i..], n);
    SliceParts(s, i, n);
  }

  /** Where the pattern matches nowhere, nothing changes. */
  lemma ScanUnchanged(m: string -> Option<nat>, fix: string -> string, s: string)
    requires forall j :: 0 <= j < |s| ==> m(s[j..]).None?
    ensures Scan(m, fix, s) == s
  {
    ScanCopiesPrefix(m, fix, s, |s|);
  }

  // ---------------------------------------------------------------------
  // Character classes of JavaScript regular expressions

  /** The characters `.` does not match. */
  predicate LineTerminator(c: char) {
    c == '\n' || c == '\r' || c == '\U{2028}' || c == '\U{2029}'
  }

  /** The characters `\s` matches. */
  predicate Whitespace(c: char) {
    c == ' ' || c == '\t' || c == '\n' || c == '\r' || c == '\U{000B}' || c == '\U{000C}' ||
    c == '\U{00A0}' || c == '\U{1680}' || ('\U{2000}' <= c <= '\U{200A}') ||
    c == '\U{2028}' || c == '\U{2029}' || c == '\U{202F}' || c == '\U{205F}' ||
    c == '\U{3000}' || c == '\U{FEFF}'
  }

  predicate Quote(c: char) {
    c == '"' || c == '\''
  }

  predicate SlashOrColon(c: char) {
    c == '/' || c == ':'
  }

  // ---------------------------------------------------------------------
  // Head rewrite: /(\..+)(\\:|\\\/|\\%)/g

  /** An escaped colon, slash or percent sign (a backslash and the character)
      starts at index `k`. */
  predicate EscapeAt(s: string, k: int) {
    0 <= k && k + 1 < |s| && s[k] == '\\' && (s[k + 1] == ':' || s[k + 1] == '/' || s[k + 1] == '%')
  }

  predicate NoEscape(s: string) {
    forall k :: 0 <= k < |s| ==> !EscapeAt(s, k)
  }

  /** The head pattern matches a prefix of `s` whose final escape starts at
      `k`: a dot, at least one character that is not a line terminator, then
      the escape. */
  predicate HeadMatchesTo(s: string, k: int) {
    |s| > 0 && s[0] == '.' && 2 <= k && EscapeAt(s, k) &&
    forall j :: 1 <= j < k ==> !LineTerminator(s[j])
  }

  /** The first line terminator at or after `i`, or `|s|`. */
  function LineEnd(s: string, i: nat): (e: nat)
    requires i <= |s|
    ensures i <= e <= |s|
    decreases |s| - i
  {
    if i == |s| || LineTerminator(s[i]) then i else LineEnd(s, i + 1)
  }

  lemma {:induction false} LineEndFacts(s: string, i: nat)
    requires i <= |s|
    ensures forall j :: i <= j < LineEnd(s, i) ==> !LineTerminator(s[j])
    ensures LineEnd(s, i) < |s| ==> LineTerminator(s[LineEnd(s, i)])
    decreases |s| - i
  {
    if !(i == |s| || LineTerminator(s[i])) {
      LineEndFacts(s, i + 1);
    }
  }

  /** The last escape starting at an index from 2 to `k`, as the length of
      the match ending with it. */
  function LastEscape(s: string, k: int): (r: Option<nat>)
    requires k + 1 < |s| || k < 2
    ensures r.Some? ==> 4 <= r.value <= k + 2
    decreases k
  {
    if k < 2 then None
    else if EscapeAt(s, k) then Some(k + 2)
    else LastEscape(s, k - 1)
  }

  lemma {:induction false} LastEscapeFacts(s: string, k: int)
    requires k + 1 < |s| || k < 2
    ensures var r := LastEscape(s, k);
      (r.Some? ==> EscapeAt(s, r.value - 2) && forall j :: r.value - 2 < j <= k ==> !EscapeAt(s, j)) &&
      (r.None? ==> forall j :: 2 <= j <= k ==> !EscapeAt(s, j))
    decreases k
  {
    if k >= 2 && !EscapeAt(s, k) {
      LastEscapeFacts(s, k - 1);
    }
  }

  /** The length of the head pattern's match at the start of `s`: `.+` is
      greedy, so the match runs to the last escape on the first line. */
  function HeadMatch(s: string): (r: Option<nat>)
    ensures r.Some? ==> 0 < r.value <= |s|
  {
    if s == [] || s[0] != '.' then None
    else LastEscape(s, LineEnd(s, 1) - 2)
  }

  /** `.replace(/\\:|\\\//g, '-')`. */
  function DashEscapes(g: string): string {
    if |g| >= 2 && g[0] == '\\' && (g[1] == ':' || g[1] == '/') then "-" + DashEscapes(g[2..])
    else if g == [] then []
    else [g[0]] + DashEscapes(g[1..])
  }

  /** `.replace(/\\%/g, 'pc')`. */
  function PcEscapes(g: string): string {
    if |g| >= 2 && g[0] == '\\' && g[1] == '%' then "pc" + PcEscapes(g[2..])
    else if g == [] then []
    else [g[0]] + PcEscapes(g[1..])
  }

  /** The callback applied to each head match. */
  function HeadFix(g: string): string {
    PcEscapes(DashEscapes(g))
  }

  /** The head rewrite over the whole document. */
  function HeadRewrite(s: string): string {
    Scan(HeadMatch, HeadFix, s)
  }

  // ---------------------------------------------------------------------
  // Body rewrite: /class\s*=\s*["'][^"']*[/:][^"']*["']/g

  /** The first index at or after `i` that is not whitespace. */
  function SkipWhitespace(s: string, i: nat): (e: nat)
    requires i <= |s|
    ensures i <= e <= |s|
    ensures forall j :: i <= j < e ==> Whitespace(s[j])
    ensures e < |s| ==> !Whitespace(s[e])
    decreases |s| - i
  {
    if i == |s| || !Whitespace(s[i]) then i else SkipWhitespace(s, i + 1)
  }

  /** The first quote at or after `i`. */
  function NextQuote(s: string, i: nat): (r: Option<nat>)
    requires i <= |s|
    ensures r.Some? ==> i <= r.value < |s| && Quote(s[r.value])
    ensures forall j :: i <= j < (if r.Some? then r.value else |s|) ==> !Quote(s[j])
    decreases |s| - i
  {
    if i == |s| then None
    else if Quote(s[i]) then Some(i)
    else NextQuote(s, i + 1)
  }

  predicate HasSlashOrColon(v: string) {
    exists j :: 0 <= j < |v| && SlashOrColon(v[j])
  }

  /** The length of the body pattern's match at the start of `s`. */
  function ClassMatch(s: string): (r: Option<nat>)
    ensures r.Some? ==> 0 < r.value <= |s|
  {
    if |s| < 5 || s[..5] != "class" then None
    else
      var a := SkipWhitespace(s, 5);
      if a == |s| || s[a] != '=' then None
      else
        var b := SkipWhitespace(s, a + 1);
        if b == |s| || !Quote(s[b]) then None
        else
          match NextQuote(s, b + 1)
          case None => None
          case Some(c) => if HasSlashOrColon(s[b + 1..c]) then Some(c + 1) else None
  }

  /** `.replace(/\/|:/g, '-')`. */
  function DashSlashColon(g: string): string {
    if g == [] then [] else (if SlashOrColon(g[0]) then "-" else [g[0]]) + DashSlashColon(g[1..])
  }

  /** `.replace(/%/g, 'pc')`. */
  function PcPercent(g: string): string {
    if g == [] then [] else (if g[0] == '%' then "pc" else [g[0]]) + PcPercent(g[1..])
  }

  /** The callback applied to each body match. */
  function BodyFix(g: string): string {
    PcPercent(DashSlashColon(g))
  }

  /** The body rewrite over the whole document. */
  function BodyRewrite(s: string): string {
    Scan(ClassMatch, BodyFix, s)
  }

  /** Both rewrites, head first. */
  function Sanitize(html: string): string {
    BodyRewrite(HeadRewrite(html))
  }

  // ---------------------------------------------------------------------
  // The body pattern, stated declaratively

  /** `s` starts with a class attribute whose `=` is at `a`, whose opening
      quote is at `b` and whose closing quote is at `c`, and whose value
      holds a `/` or a `:`: exactly what the body pattern matches. */
  predicate ClassAttrAt(s: string, a: nat, b: nat, c: nat) {
    5 <= a < b < c < |s| && s[..5] == "class" &&
    (forall j :: 5 <= j < a ==> Whitespace(s[j])) && s[a] == '=' &&
    (forall j :: a < j < b ==> Whitespace(s[j])) && Quote(s[b]) &&
    (forall j :: b < j < c ==> !Quote(s[j])) && Quote(s[c]) &&
    HasSlashOrColon(s[b + 1..c])
  }

  lemma SkipWhitespaceAt(s: string, i: nat, e: nat)
    requires i <= e <= |s|
    requires forall j :: i <= j < e ==> Whitespace(s[j])
    requires e < |s| ==> !Whitespace(s[e])
    ensures SkipWhitespace(s, i) == e
  {
  }

  lemma NextQuoteAt(s: string, i: nat, c: nat)
    requires i <= c < |s| && Quote(s[c])
    requires forall j :: i <= j < c ==> !Quote(s[j])
    ensures NextQuote(s, i) == Some(c)
  {
  }

  /** Every class attribute of that shape is matched, up to its closing quote. */
  lemma ClassMatchComplete(s: string, a: nat, b: nat, c: nat)
    requires ClassAttrAt(s, a, b, c)
    ensures ClassMatch(s) == Some(c + 1)
  {
    assert SkipWhitespace(s, 5) == a by {
      SkipWhitespaceAt(s, 5, a);
    }
    assert SkipWhitespace(s, a + 1) == b by {
      SkipWhitespaceAt(s, a + 1, b);
    }
    assert NextQuote(s, b + 1) == Some(c) by {
      NextQuoteAt(s, b + 1, c);
    }
  }

  /** Every match is a class attribute of that shape. */
  lemma ClassMatchSound(s: string, c: nat)
    requires ClassMatch(s) == Some(c + 1)
    ensures exists a: nat, b: nat :: ClassAttrAt(s, a, b, c)
  {
    var a := SkipWhitespace(s, 5);
    var b := SkipWhitespace(s, a + 1);
    assert ClassAttrAt(s, a, b, c);
  }

  // ---------------------------------------------------------------------
  // The body callback

  predicate NoneOf(g: string, cs: set<char>) {
    forall j :: 0 <= j < |g| ==> g[j] !in cs
  }

  lemma {:induction false} DashSlashColonFacts(g: string)
    ensures NoneOf(DashSlashColon(g), {'/', ':'})
    ensures forall j :: 0 <= j < |DashSlashColon(g)| && DashSlashColon(g)[j] == '%' ==> '%' in g
    ensures NoneOf(g, {'/', ':'}) ==> DashSlashColon(g) == g
    ensures |DashSlashColon(g)| == |g|
    ensures forall j :: 0 <= j < |g| ==> DashSlashColon(g)[j] == (if SlashOrColon(g[j]) then '-' else g[j])
  {
    if g != [] {
      DashSlashColonFacts(g[1..]);
      var h := if SlashOrColon(g[0]) then "-" else [g[0]];
      assert DashSlashColon(g) == h + DashSlashColon(g[1..]);
      forall j | 0 <= j < |g| ensures DashSlashColon(g)[j] == (if SlashOrColon(g[j]) then '-' else g[j]) {
        if j > 0 {
          assert g[1..][j - 1] == g[j];
        }
      }
      forall j | 0 <= j < |DashSlashColon(g)| && DashSlashColon(g)[j] == '%' ensures '%' in g {
        if j > 0 {
          assert DashSlashColon(g[1..])[j - 1] == '%';
          assert '%' in g[1..];
        }
      }
      if NoneOf(g, {'/', ':'}) {
        assert NoneOf(g[1..], {'/', ':'}) by {
          forall j | 0 <= j < |g[1..]| ensures g[1..][j] !in {'/', ':'} { assert g[1..][j] == g[j + 1]; }
        }
        assert [g[0]] + g[1..] == g;
      }
    }
  }

  lemma {:induction false} PcPercentFacts(g: string)
    ensures NoneOf(PcPercent(g), {'%'})
    ensures NoneOf(g, {'/', ':'}) ==> NoneOf(PcPercent(g), {'/', ':'})
    ensures NoneOf(g, {'%'}) ==> PcPercent(g) == g
    ensures |PcPercent(g)| >= |g|
  {
    if g != [] {
      PcPercentFacts(g[1..]);
      var h := if g[0] == '%' then "pc" else [g[0]];
      assert PcPercent(g) == h + PcPercent(g[1..]);
      if NoneOf(g, {'/', ':'}) {
        assert NoneOf(g[1..], {'/', ':'}) by {
          forall j | 0 <= j < |g[1..]| ensures g[1..][j] !in {'/', ':'} { assert g[1..][j] == g[j + 1]; }
        }
      }
      if NoneOf(g, {'%'}) {
        assert NoneOf(g[1..], {'%'}) by {
          forall j | 0 <= j < |g[1..]| ensures g[1..][j] !in {'%'} { assert g[1..][j] == g[j + 1]; }
        }
        assert [g[0]] + g[1..] == g;
      }
    }
  }

  /** The body callback leaves no `/`, `:` or `%`, and changes nothing in
      text that has none of them. */
  /** Each `%` becomes `pc`: with the facts above, which keep text without
      `%` as it is, this determines the replacement completely. */
  lemma PcPercentReplaces(x: string, y: string)
    ensures PcPercent(x + "%" + y) == PcPercent(x) + "pc" + PcPercent(y)
  {
    PcPercentAppend(x + "%", y);
    PcPercentAppend(x, "%");
    assert PcPercent("%") == "pc" + PcPercent([]);
  }

  lemma BodyFixClean(g: string)
    ensures NoneOf(BodyFix(g), {'/', ':', '%'})
    ensures NoneOf(g, {'/', ':', '%'}) ==> BodyFix(g) == g
    ensures |BodyFix(g)| >= |g|
  {
    DashSlashColonFacts(g);
    PcPercentFacts(DashSlashColon(g));
    if NoneOf(g, {'/', ':', '%'}) {
      assert NoneOf(g, {'/', ':'});
      assert NoneOf(g, {'%'});
    }
  }

  lemma {:induction false} DashSlashColonAppend(x: string, y: string)
    ensures DashSlashColon(x + y) == DashSlashColon(x) + DashSlashColon(y)
  {
    if x != [] {
      assert (x + y)[1..] == x[1..] + y;
      DashSlashColonAppend(x[1..], y);
    } else {
      assert x + y == y;
    }
  }

  lemma {:induction false} PcPercentAppend(x: string, y: string)
    ensures PcPercent(x + y) == PcPercent(x) + PcPercent(y)
  {
    if x != [] {
      assert (x + y)[1..] == x[1..] + y;
      PcPercentAppend(x[1..], y);
    } else {
      assert x + y == y;
    }
  }

  lemma BodyFixAppend(x: string, y: string)
    ensures BodyFix(x + y) == BodyFix(x) + BodyFix(y)
  {
    DashSlashColonAppend(x, y);
    PcPercentAppend(DashSlashColon(x), DashSlashColon(y));
  }

  // ---------------------------------------------------------------------
  // The body rewrite over a document

  /** The body pattern matches nowhere in `s`. */
  predicate NoClassMatch(s: string) {
    forall i :: 0 <= i < |s| ==> ClassMatch(s[i..]).None?
  }

  /** The text of a class attribute outside its value is left alone. */
  lemma AttributeFrameClean(s: string, a: nat, b: nat)
    requires 5 <= a < b < |s| && s[..5] == "class"
    requires forall j :: 5 <= j < a ==> Whitespace(s[j])
    requires s[a] == '=' && Quote(s[b])
    requires forall j :: a < j < b ==> Whitespace(s[j])
    ensures BodyFix(s[..b + 1]) == s[..b + 1]
  {
    BodyFixClean(s[..b + 1]);
  }

  /** A class attribute at the very start. */
  lemma BodyRewriteAtStart(t: string, a: nat, b: nat, c: nat)
    requires ClassAttrAt(t, a, b, c)
    ensures BodyRewrite(t) == t[..b + 1] + BodyFix(t[b + 1..c]) + [t[c]] + BodyRewrite(t[c + 1..])
  {
    ClassMatchComplete(t, a, b, c);
    ScanMatch(ClassMatch, BodyFix, t, c + 1);
    AttributeFrameClean(t, a, b);
    FixFrame(t, b, c, BodyRewrite(t[c + 1..]));
  }

  lemma FixFrame(t: string, b: nat, c: nat, r: string)
    requires b < c < |t| && BodyFix(t[..b + 1]) == t[..b + 1] && Quote(t[c])
    ensures BodyFix(t[..c + 1]) + r == t[..b + 1] + BodyFix(t[b + 1..c]) + [t[c]] + r
  {
    var p, v, q := t[..b + 1], t[b + 1..c], [t[c]];
    assert t[..c + 1] == p + v + q;
    BodyFixAppend(p + v, q);
    BodyFixAppend(p, v);
    BodyFixClean(q);
  }

  /** The first class attribute whose value holds a `/` or a `:` comes out
      with the same frame and with its value rewritten: `/` and `:` become
      `-`, `%` becomes `pc`, and none of the three is left in it. The text
      before it is copied, and the scan goes on after its closing quote. */
  lemma BodyRewriteAt(s: string, i: nat, a: nat, b: nat, c: nat)
    requires i <= |s|
    requires forall j :: 0 <= j < i ==> ClassMatch(s[j..]).None?
    requires ClassAttrAt(s[i..], a, b, c)
    ensures BodyRewrite(s) ==
      s[..i + b + 1] + BodyFix(s[i + b + 1..i + c]) + [s[i + c]] + BodyRewrite(s[i + c + 1..])
    ensures NoneOf(BodyFix(s[i + b + 1..i + c]), {'/', ':', '%'})
  {
    var t := s[i..];
    ScanCopiesPrefix(ClassMatch, BodyFix, s, i);
    BodyRewriteAtStart(t, a, b, c);
    Reassemble(s, i, b, c, BodyFix(t[b + 1..c]), BodyRewrite(t[c + 1..]));
    BodyFixClean(s[i + b + 1..i + c]);
  }

  lemma Reassemble(s: string, i: nat, b: nat, c: nat, v: string, r: string)
    requires i + b < i + c < |s|
    ensures s[..i] + (s[i..][..b + 1] + v + [s[i..][c]] + r) ==
      s[..i + b + 1] + v + [s[i + c]] + r
    ensures s[i..][b + 1..c] == s[i + b + 1..i + c] && s[i..][c + 1..] == s[i + c + 1..]
  {
    assert s[..i] + s[i..][..b + 1] == s[..i + b + 1];
  }

  /** Every match holds a `/` or a `:`. */
  lemma MatchHasSlashOrColon(s: string)
    requires ClassMatch(s).Some?
    ensures exists k :: 0 <= k < ClassMatch(s).value && SlashOrColon(s[k])
  {
    var c := ClassMatch(s).value - 1;
    ClassMatchSound(s, c);
    var a: nat, b: nat :| ClassAttrAt(s, a, b, c);
    var j :| 0 <= j < |s[b + 1..c]| && SlashOrColon(s[b + 1..c][j]);
    assert s[b + 1 + j] == s[b + 1..c][j];
  }

  /** A match at the start always changes the document. */
  lemma MatchChanges(s: string)
    requires ClassMatch(s).Some?
    ensures BodyRewrite(s) != s
  {
    var n := ClassMatch(s).value;
    MatchHasSlashOrColon(s);
    var k :| 0 <= k < n && SlashOrColon(s[k]);
    var m := s[..n];
    BodyFixClean(m);
    var out := BodyRewrite(s);
    ScanMatch(ClassMatch, BodyFix, s, n);
    assert out == BodyFix(m) + BodyRewrite(s[n..]);
    assert out[k] == BodyFix(m)[k];
    assert out[k] != s[k];
  }

  lemma FixedPointHasNoMatchAtStart(s: string)
    requires BodyRewrite(s) == s
    ensures ClassMatch(s).None?
  {
    if ClassMatch(s).Some? {
      MatchChanges(s);
    }
  }

  /** The body rewrite changes a document exactly when the pattern matches
      somewhere in it. */
  lemma {:induction false} BodyUnchangedIff(s: string)
    ensures BodyRewrite(s) == s <==> NoClassMatch(s)
    decreases |s|
  {
    if s != [] {
      assert s[0..] == s;
      forall i | 0 <= i < |s| - 1 ensures s[1..][i..] == s[i + 1..] {}
      BodyUnchangedIff(s[1..]);
      if BodyRewrite(s) == s {
        FixedPointHasNoMatchAtStart(s);
        ScanCopy(ClassMatch, BodyFix, s);
        assert [s[0]] + BodyRewrite(s[1..]) == s;
        assert BodyRewrite(s[1..]) == s[1..];
        forall i | 0 <= i < |s| ensures ClassMatch(s[i..]).None? {
          if i > 0 {
            assert ClassMatch(s[1..][i - 1..]).None?;
          }
        }
      }
      if NoClassMatch(s) {
        assert NoClassMatch(s[1..]) by {
          forall i | 0 <= i < |s| - 1 ensures ClassMatch(s[1..][i..]).None? {
            assert ClassMatch(s[i + 1..]).None?;
          }
        }
        ScanCopy(ClassMatch, BodyFix, s);
        assert [s[0]] + s[1..] == s;
      }
    }
  }

  /** The pattern needs a `/` or `:` in the document. */
  lemma NoSlashOrColonNoMatch(s: string)
    requires NoneOf(s, {'/', ':'})
    ensures NoClassMatch(s)
  {
    forall i | 0 <= i < |s| ensures ClassMatch(s[i..]).None? {
      if ClassMatch(s[i..]).Some? {
        MatchHasSlashOrColon(s[i..]);
      }
    }
  }

  /** A class attribute whose value has no `/` and no `:` (whatever `%` it
      holds) is not matched, and the rewrite copies the whole attribute,
      up to its closing quote, unchanged. */
  lemma PercentOnlyNotMatched(s: string, a: nat, b: nat, c: nat)
    requires 5 <= a < b < c < |s| && s[..5] == "class"
    requires forall j :: 5 <= j < a ==> Whitespace(s[j])
    requires s[a] == '=' && Quote(s[b]) && Quote(s[c])
    requires forall j :: a < j < b ==> Whitespace(s[j])
    requires forall j :: b < j < c ==> !Quote(s[j])
    requires !HasSlashOrColon(s[b + 1..c])
    ensures ClassMatch(s).None?
    ensures s[..c + 1] <= BodyRewrite(s)
  {
    NotMatchedAtStart(s, a, b, c);
    NoLetterCInFrame(s, a, b);
    assert s[0..] == s;
    KeepsPrefixFrom(s, b, c, 1);
  }

  lemma NotMatchedAtStart(s: string, a: nat, b: nat, c: nat)
    requires 5 <= a < b < c < |s| && s[..5] == "class"
    requires forall j :: 5 <= j < a ==> Whitespace(s[j])
    requires s[a] == '=' && Quote(s[b]) && Quote(s[c])
    requires forall j :: a < j < b ==> Whitespace(s[j])
    requires forall j :: b < j < c ==> !Quote(s[j])
    requires !HasSlashOrColon(s[b + 1..c])
    ensures ClassMatch(s).None?
  {
    SkipWhitespaceAt(s, 5, a);
    SkipWhitespaceAt(s, a + 1, b);
    NextQuoteAt(s, b + 1, c);
  }

  /** No match can start inside `s[1..b + 1]`: the letter `c` of `class`
      is not there. */
  predicate NoLetterCUpTo(s: string, b: nat) {
    forall j :: 0 < j <= b && j < |s| ==> s[j] != 'c'
  }

  lemma NoLetterCInFrame(s: string, a: nat, b: nat)
    requires 5 <= a < b < |s| && s[..5] == "class"
    requires forall j :: 5 <= j < a ==> Whitespace(s[j])
    requires s[a] == '=' && Quote(s[b])
    requires forall j :: a < j < b ==> Whitespace(s[j])
    ensures NoLetterCUpTo(s, b)
  {
    forall j | 0 < j <= b && j < |s| ensures s[j] != 'c' {
      if j < 5 {
        assert s[j] == s[..5][j];
      }
    }
  }

  /** From `k` on, while no match starts before `k`, the scan copies
      `s[..c + 1]`. */
  lemma {:induction false} KeepsPrefixFrom(s: string, b: nat, c: nat, k: nat)
    requires b < c < |s| && Quote(s[c]) && (forall j :: b < j < c ==> !Quote(s[j]))
    requires NoLetterCUpTo(s, b)
    requires 1 <= k <= c + 1
    requires forall j :: 0 <= j < k ==> ClassMatch(s[j..]).None?
    ensures s[..c + 1] <= BodyRewrite(s)
    decreases c + 1 - k
  {
    if k == c + 1 {
      ScanCopiesPrefix(ClassMatch, BodyFix, s, c + 1);
    } else if ClassMatch(s[k..]).Some? {
      var e: nat := ClassMatch(s[k..]).value - 1;
      ClassMatchSound(s[k..], e);
      var a', b' :| ClassAttrAt(s[k..], a', b', e);
      MatchKeepsPrefix(s, b, c, k, a', b', e);
    } else {
      KeepsPrefixFrom(s, b, c, k + 1);
    }
  }

  lemma AttrAt(s: string, k: nat, a: nat, b: nat, e: nat)
    requires k <= |s| && ClassAttrAt(s[k..], a, b, e)
    ensures k + e < |s| && s[k] == 'c' && Quote(s[k + b]) && b < e
  {
    assert s[k..][..5][0] == s[k];
    assert s[k..][b] == s[k + b];
  }

  /** A first match at `k` in `(0, c]` begins with `c`, so it starts after
      `b`, and its opening quote lies at `c` or later: its frame covers
      `s[..c + 1]`. */
  lemma MatchKeepsPrefix(s: string, b: nat, c: nat, k: nat, a': nat, b': nat, e: nat)
    requires b < c < |s| && Quote(s[c]) && (forall j :: b < j < c ==> !Quote(s[j]))
    requires NoLetterCUpTo(s, b)
    requires 1 <= k <= c
    requires forall j :: 0 <= j < k ==> ClassMatch(s[j..]).None?
    requires ClassAttrAt(s[k..], a', b', e)
    ensures s[..c + 1] <= BodyRewrite(s)
  {
    AttrAt(s, k, a', b', e);
    assert k + b' >= c;
    FrameKept(s, k, a', b', e);
    assert s[..c + 1] <= s[..k + b' + 1];
  }

  /** The rewrite keeps everything up to the opening quote of its first
      match. */
  lemma FrameKept(s: string, i: nat, a: nat, b: nat, c: nat)
    requires i <= |s|
    requires forall j :: 0 <= j < i ==> ClassMatch(s[j..]).None?
    requires ClassAttrAt(s[i..], a, b, c)
    ensures s[..i + b + 1] <= BodyRewrite(s)
  {
    BodyRewriteAt(s, i, a, b, c);
  }

  // ---------------------------------------------------------------------
  // The head pattern, stated declaratively

  lemma {:induction false} LineEndAtLeast(s: string, i: nat, m: nat)
    requires i <= m <= |s|
    requires forall j :: i <= j < m ==> !LineTerminator(s[j])
    ensures m <= LineEnd(s, i)
    decreases m - i
  {
    if i < m {
      LineEndAtLeast(s, i + 1, m);
    }
  }

  /** A match never crosses a line terminator. */
  lemma HeadMatchWithinLine(s: string, k: int)
    requires HeadMatchesTo(s, k)
    ensures k + 2 <= LineEnd(s, 1)
  {
    assert !LineTerminator(s[k]) && !LineTerminator(s[k + 1]);
    LineEndAtLeast(s, 1, k + 2);
  }

  /** What `HeadMatch` finds is a match, and the longest one. */
  lemma HeadMatchSound(s: string)
    requires HeadMatch(s).Some?
    ensures HeadMatchesTo(s, HeadMatch(s).value - 2)
    ensures forall k :: HeadMatch(s).value - 2 < k ==> !HeadMatchesTo(s, k)
  {
    LineEndFacts(s, 1);
    LastEscapeFacts(s, LineEnd(s, 1) - 2);
    forall k | HeadMatch(s).value - 2 < k && HeadMatchesTo(s, k) ensures false {
      HeadMatchWithinLine(s, k);
    }
  }

  /** Wherever the pattern can match, `HeadMatch` finds a match at least as long. */
  lemma HeadMatchComplete(s: string, k: int)
    requires HeadMatchesTo(s, k)
    ensures HeadMatch(s).Some? && k <= HeadMatch(s).value - 2
  {
    HeadMatchWithinLine(s, k);
    LastEscapeFacts(s, LineEnd(s, 1) - 2);
  }

  // ---------------------------------------------------------------------
  // The head callback

  /** No escaped colon or slash in `s`. */
  predicate NoDashEscape(s: string) {
    forall k :: 0 <= k < |s| - 1 ==> !(s[k] == '\\' && (s[k + 1] == ':' || s[k + 1] == '/'))
  }

  lemma {:induction false} DashEscapesFacts(g: string)
    ensures NoDashEscape(DashEscapes(g))
    ensures g != [] ==>
      DashEscapes(g) != [] && (DashEscapes(g)[0] == g[0] || DashEscapes(g)[0] == '-')
    ensures NoDashEscape(g) ==> DashEscapes(g) == g
    decreases |g|
  {
    if |g| >= 2 && g[0] == '\\' && (g[1] == ':' || g[1] == '/') {
      DashEscapesFacts(g[2..]);
      var r := DashEscapes(g[2..]);
      assert DashEscapes(g) == "-" + r;
      forall k | 0 <= k < |"-" + r| - 1
        ensures !(("-" + r)[k] == '\\' && (("-" + r)[k + 1] == ':' || ("-" + r)[k + 1] == '/'))
      {
        if k > 0 {
          assert ("-" + r)[k] == r[k - 1] && ("-" + r)[k + 1] == r[k];
        }
      }
    } else if g != [] {
      DashEscapesFacts(g[1..]);
      var r := DashEscapes(g[1..]);
      assert DashEscapes(g) == [g[0]] + r;
      forall k | 0 <= k < |[g[0]] + r| - 1
        ensures !(([g[0]] + r)[k] == '\\' && (([g[0]] + r)[k + 1] == ':' || ([g[0]] + r)[k + 1] == '/'))
      {
        if k > 0 {
          assert ([g[0]] + r)[k] == r[k - 1] && ([g[0]] + r)[k + 1] == r[k];
        } else {
          assert ([g[0]] + r)[1] == r[0];
        }
      }
      if NoDashEscape(g) {
        assert NoDashEscape(g[1..]) by {
          forall k | 0 <= k < |g[1..]| - 1
            ensures !(g[1..][k] == '\\' && (g[1..][k + 1] == ':' || g[1..][k + 1] == '/'))
          {
            assert g[1..][k] == g[k + 1] && g[1..][k + 1] == g[k + 2];
          }
        }
        assert [g[0]] + g[1..] == g;
      }
    }
  }

  predicate NoPcEscape(s: string) {
    forall k :: 0 <= k < |s| - 1 ==> !(s[k] == '\\' && s[k + 1] == '%')
  }

  lemma {:induction false} PcEscapesFacts(g: string)
    ensures NoDashEscape(g) ==> NoEscape(PcEscapes(g))
    ensures g != [] ==>
      PcEscapes(g) != [] && (PcEscapes(g)[0] == g[0] || PcEscapes(g)[0] == 'p')
    ensures NoPcEscape(g) ==> PcEscapes(g) == g
    decreases |g|
  {
    if |g| >= 2 && g[0] == '\\' && g[1] == '%' {
      PcEscapesFacts(g[2..]);
      var r := PcEscapes(g[2..]);
      assert PcEscapes(g) == "pc" + r;
      if NoDashEscape(g) {
        assert NoDashEscape(g[2..]) by {
          forall k | 0 <= k < |g[2..]| - 1
            ensures !(g[2..][k] == '\\' && (g[2..][k + 1] == ':' || g[2..][k + 1] == '/'))
          {
            assert g[2..][k] == g[k + 2] && g[2..][k + 1] == g[k + 3];
          }
        }
        forall k | 0 <= k < |"pc" + r| ensures !EscapeAt("pc" + r, k) {
          if k > 1 {
            assert ("pc" + r)[k] == r[k - 2];
            assert k + 1 < |"pc" + r| ==> ("pc" + r)[k + 1] == r[k - 1];
            assert !EscapeAt(r, k - 2);
          }
        }
      }
    } else if g != [] {
      PcEscapesFacts(g[1..]);
      var r := PcEscapes(g[1..]);
      assert PcEscapes(g) == [g[0]] + r;
      if NoDashEscape(g) {
        assert NoDashEscape(g[1..]) by {
          forall k | 0 <= k < |g[1..]| - 1
            ensures !(g[1..][k] == '\\' && (g[1..][k + 1] == ':' || g[1..][k + 1] == '/'))
          {
            assert g[1..][k] == g[k + 1] && g[1..][k + 1] == g[k + 2];
          }
        }
        forall k | 0 <= k < |[g[0]] + r| ensures !EscapeAt([g[0]] + r, k) {
          if k > 0 {
            assert ([g[0]] + r)[k] == r[k - 1];
            assert k + 1 < |[g[0]] + r| ==> ([g[0]] + r)[k + 1] == r[k];
            assert !EscapeAt(r, k - 1);
          } else if |r| > 0 {
            assert ([g[0]] + r)[1] == r[0];
          }
        }
      }
      if NoPcEscape(g) {
        assert NoPcEscape(g[1..]) by {
          forall k | 0 <= k < |g[1..]| - 1 ensures !(g[1..][k] == '\\' && g[1..][k + 1] == '%') {
            assert g[1..][k] == g[k + 1] && g[1..][k + 1] == g[k + 2];
          }
        }
        assert [g[0]] + g[1..] == g;
      }
    }
  }

  /** Splitting before a backslash does not split an escape. */
  lemma {:induction false} DashEscapesAppend(x: string, z: string)
    requires z == [] || z[0] == '\\'
    ensures DashEscapes(x + z) == DashEscapes(x) + DashEscapes(z)
    decreases |x|
  {
    if x == [] {
      assert x + z == z;
    } else if |x| >= 2 && x[0] == '\\' && (x[1] == ':' || x[1] == '/') {
      assert (x + z)[0] == x[0] && (x + z)[1] == x[1];
      assert (x + z)[2..] == x[2..] + z;
      DashEscapesAppend(x[2..], z);
    } else {
      assert (x + z)[0] == x[0];
      assert |x| == 1 && z != [] ==> (x + z)[1] == '\\';
      assert |x| >= 2 ==> (x + z)[1] == x[1];
      assert (x + z)[1..] == x[1..] + z;
      DashEscapesAppend(x[1..], z);
    }
  }

  /** Each escaped colon or slash becomes one `-`. */
  lemma DashEscapesReplaces(x: string, c: char, y: string)
    requires c == ':' || c == '/'
    ensures DashEscapes(x + ['\\', c] + y) == DashEscapes(x) + "-" + DashEscapes(y)
  {
    DashEscapesAppend(x, ['\\', c] + y);
    assert x + ['\\', c] + y == x + (['\\', c] + y);
    assert (['\\', c] + y)[2..] == y;
  }

  lemma {:induction false} PcEscapesAppend(x: string, z: string)
    requires z == [] || z[0] == '\\'
    ensures PcEscapes(x + z) == PcEscapes(x) + PcEscapes(z)
    decreases |x|
  {
    if x == [] {
      assert x + z == z;
    } else if |x| >= 2 && x[0] == '\\' && x[1] == '%' {
      assert (x + z)[0] == x[0] && (x + z)[1] == x[1];
      assert (x + z)[2..] == x[2..] + z;
      PcEscapesAppend(x[2..], z);
    } else {
      assert (x + z)[0] == x[0];
      assert |x| == 1 && z != [] ==> (x + z)[1] == '\\';
      assert |x| >= 2 ==> (x + z)[1] == x[1];
      assert (x + z)[1..] == x[1..] + z;
      PcEscapesAppend(x[1..], z);
    }
  }

  /** Each escaped percent sign becomes `pc`. */
  lemma PcEscapesReplaces(x: string, y: string)
    ensures PcEscapes(x + "\\%" + y) == PcEscapes(x) + "pc" + PcEscapes(y)
  {
    PcEscapesAppend(x, "\\%" + y);
    assert x + "\\%" + y == x + ("\\%" + y);
    assert ("\\%" + y)[2..] == y;
  }

  /** The head callback leaves no escaped colon, slash or percent sign, and
      changes nothing in text that has none. */
  lemma HeadFixClean(g: string)
    ensures NoEscape(HeadFix(g))
    ensures NoEscape(g) ==> HeadFix(g) == g
  {
    DashEscapesFacts(g);
    PcEscapesFacts(DashEscapes(g));
    if NoEscape(g) {
      assert NoDashEscape(g) by {
        forall k | 0 <= k < |g| - 1 ensures !(g[k] == '\\' && (g[k + 1] == ':' || g[k + 1] == '/')) {
          assert !EscapeAt(g, k);
        }
      }
      assert NoPcEscape(g) by {
        forall k | 0 <= k < |g| - 1 ensures !(g[k] == '\\' && g[k + 1] == '%') {
          assert !EscapeAt(g, k);
        }
      }
    }
  }

  // ---------------------------------------------------------------------
  // The head rewrite over a document

  predicate NoHeadMatch(s: string) {
    forall i :: 0 <= i < |s| ==> HeadMatch(s[i..]).None?
  }

  /** The first selector the head pattern matches is rewritten so that no
      escape is left in it; the text before it is copied and the scan goes
      on after it. */
  lemma HeadRewriteAt(s: string, i: nat, n: nat)
    requires i < |s|
    requires forall j :: 0 <= j < i ==> HeadMatch(s[j..]).None?
    requires HeadMatch(s[i..]) == Some(n)
    ensures i + n <= |s|
    ensures HeadRewrite(s) == s[..i] + HeadFix(s[i..i + n]) + HeadRewrite(s[i + n..])
    ensures NoEscape(HeadFix(s[i..i + n]))
  {
    ScanAt(HeadMatch, HeadFix, s, i, n);
    HeadFixClean(s[i..i + n]);
  }

  /** Where the head pattern matches nowhere, the head rewrite changes nothing. */
  lemma HeadUnchanged(s: string)
    requires NoHeadMatch(s)
    ensures HeadRewrite(s) == s
  {
    ScanUnchanged(HeadMatch, HeadFix, s);
  }

  lemma {:induction false} LastEscapeNone(s: string, k: int)
    requires k + 1 < |s| || k < 2
    requires forall j :: 2 <= j <= k ==> !EscapeAt(s, j)
    ensures LastEscape(s, k).None?
    decreases k
  {
    if k >= 2 {
      LastEscapeNone(s, k - 1);
    }
  }

  /** The head pattern needs an escape. */
  lemma NoEscapeNoHeadMatch(s: string)
    requires NoEscape(s)
    ensures NoHeadMatch(s)
  {
    forall i | 0 <= i < |s| ensures HeadMatch(s[i..]).None? {
      var t := s[i..];
      forall j | 0 <= j < |t| ensures !EscapeAt(t, j) {
        assert !EscapeAt(s, i + j);
        assert j + 1 < |t| ==> t[j] == s[i + j] && t[j + 1] == s[i + j + 1];
      }
      if t[0] == '.' {
        LastEscapeNone(t, LineEnd(t, 1) - 2);
      }
    }
  }

  // ---------------------------------------------------------------------
  // Sanitizing twice

  /** The body pattern starts with a `c`. */
  lemma NoLetterCNoMatch(s: string)
    requires forall i :: 0 <= i < |s| ==> s[i] != 'c'
    ensures NoClassMatch(s)
  {
    forall i | 0 <= i < |s| ensures ClassMatch(s[i..]).None? {
      if |s[i..]| >= 5 {
        assert s[i..][..5][0] == s[i];
      }
    }
  }

  /** One slash between two plain runs becomes a dash. */
  lemma FixOneSlash(p: string, q: string)
    requires NoneOf(p, {'/', ':', '%'}) && NoneOf(q, {'/', ':', '%'})
    ensures BodyFix(p + "/" + q) == p + "-" + q
  {
    BodyFixAppend(p + "/", q);
    BodyFixAppend(p, "/");
    BodyFixClean(p);
    BodyFixClean(q);
    assert "/"[1..] == [];
    assert DashSlashColon("/") == "-";
    assert "-"[1..] == [];
  }

  lemma FirstPassFix(m: string, p: string, q: string)
    requires m == "class=\"a/b class=\"" && p == "class=\"a" && q == "b class=\""
    ensures BodyFix(m) == p + "-" + q
  {
    assert m == p + "/" + q;
    FixOneSlash(p, q);
  }

  /** Text without a backslash has no head escape, so the head rewrite
      keeps it. */
  lemma NoBackslashHeadUnchanged(s: string)
    requires forall i :: 0 <= i < |s| ==> s[i] != '\\'
    ensures HeadRewrite(s) == s
  {
    assert NoEscape(s);
    NoEscapeNoHeadMatch(s);
    HeadUnchanged(s);
  }

  lemma FirstPassSplit(s0: string)
    requires s0 == "class=\"a/b class=\" x/y\""
    ensures BodyRewrite(s0) == BodyFix(s0[..18]) + s0[18..]
  {
    assert s0[8] == '/';
    assert s0[7..17][1] == s0[8];
    assert ClassAttrAt(s0, 5, 6, 17);
    ClassMatchComplete(s0, 5, 6, 17);
    ScanMatch(ClassMatch, BodyFix, s0, 18);
    NoLetterCNoMatch(s0[18..]);
    BodyUnchangedIff(s0[18..]);
  }

  lemma FirstPassParts(s0: string, t: string)
    requires s0 == "class=\"a/b class=\" x/y\""
    requires t == "class=\"a-b class=\" x/y\""
    ensures BodyFix(s0[..18]) + s0[18..] == t
  {
    var m, p, q, r := s0[..18], "class=\"a", "b class=\"", s0[18..];
    assert m == "class=\"a/b class=\"";
    FirstPassFix(m, p, q);
    assert r == " x/y\"";
    assert t == p + "-" + q + r;
  }

  lemma NonIdempotentFirstPass(s0: string, t: string)
    requires s0 == "class=\"a/b class=\" x/y\""
    requires t == "class=\"a-b class=\" x/y\""
    ensures Sanitize(s0) == t
  {
    NoBackslashHeadUnchanged(s0);
    FirstPassSplit(s0);
    FirstPassParts(s0, t);
  }

  lemma SecondPassClass(t: string)
    requires t == "class=\"a-b class=\" x/y\""
    ensures |t| > 11 && ClassMatch(t[11..]).Some?
  {
    var u := t[11..];
    assert u == "class=\" x/y\"";
    assert u[9] == '/';
    assert u[7..11][2] == u[9];
    assert ClassAttrAt(u, 5, 6, 11);
    ClassMatchComplete(u, 5, 6, 11);
  }

  lemma SecondPassRewrites(t: string, i: nat)
    requires i < |t| && HeadRewrite(t) == t && ClassMatch(t[i..]).Some?
    ensures Sanitize(t) != t
  {
    BodyUnchangedIff(t);
  }

  lemma NonIdempotentSecondPass(t: string)
    requires t == "class=\"a-b class=\" x/y\""
    ensures Sanitize(t) != t
  {
    NoBackslashHeadUnchanged(t);
    SecondPassClass(t);
    SecondPassRewrites(t, 11);
  }

  /** Sanitizing is not idempotent: a class value that itself contains
      `class="` lets the second pass match where the first did not. */
  lemma SanitizeNotIdempotent()
    ensures var s0 := "class=\"a/b class=\" x/y\"";
      Sanitize(Sanitize(s0)) != Sanitize(s0)
  {
    var s0, t := "class=\"a/b class=\" x/y\"", "class=\"a-b class=\" x/y\"";
    NonIdempotentFirstPass(s0, t);
    NonIdempotentSecondPass(t);
  }
}
