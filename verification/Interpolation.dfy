/** Template interpolation: the payload is printed, `${word}` is replaced in the text, and
    the text is parsed again. The meaning is a substitution in the strings of the value. */
module Interpolation {
  import opened Wrappers
  import opened Json

  type Vars = map<string, string>

  // ---------------------------------------------------------------- text replacement

  predicate IsWordChar(c: char) {
    'a' <= c <= 'z' || 'A' <= c <= 'Z' || '0' <= c <= '9' || c == '_'
  }

  predicate IsWord(s: string) {
    s != "" && forall i :: 0 <= i < |s| ==> IsWordChar(s[i])
  }

  /** Length of the longest run of word characters at the start of `s`. */
  function WordLength(s: string): (n: nat)
    ensures n <= |s|
    ensures forall i :: 0 <= i < n ==> IsWordChar(s[i])
    ensures n < |s| ==> !IsWordChar(s[n])
  {
    if s == "" || !IsWordChar(s[0]) then 0 else 1 + WordLength(s[1..])
  }

  /** The word of a placeholder whose `${` has been read. */
  function PlaceholderBody(s: string): (r: Option<string>)
    ensures r.Some? ==> IsWord(r.value) && |r.value| + 1 <= |s| && s[..|r.value| + 1] == r.value + "}"
  {
    var n := WordLength(s);
    if n == 0 || n == |s| || s[n] != '}' then None else Some(s[..n])
  }

  /** The word of a placeholder that starts `s`, if one does. */
  function Placeholder(s: string): (r: Option<string>)
    ensures r.Some? ==> IsWord(r.value) && |r.value| + 3 <= |s| && s[..|r.value| + 3] == Hole(r.value)
  {
    if |s| < 2 || s[0] != '$' || s[1] != '{' then None else
    var r := PlaceholderBody(s[2..]);
    assert r.Some? ==> s[..|r.value| + 3] == s[..2] + s[2..][..|r.value| + 1];
    r
  }

  function Hole(k: string): string {
    "${" + k + "}"
  }

  function ValueOf(k: string, vars: Vars): string {
    if k in vars then vars[k] else Hole(k)
  }

  /** How much of `s` one step of the replacement consumes, and what it writes for it. */
  function Step(s: string, vars: Vars): (r: (nat, string))
    requires s != ""
    ensures 1 <= r.0 <= |s|
  {
    match Placeholder(s)
    case Some(k) => (|k| + 3, ValueOf(k, vars))
    case None => (1, [s[0]])
  }

  /** Replaces every placeholder, left to right; one with an unknown name stays as it is. */
  function Replace(s: string, vars: Vars): string
    decreases |s|
  {
    if s == "" then "" else Step(s, vars).1 + Replace(s[Step(s, vars).0..], vars)
  }

  /** No placeholder can reach across the start of a text that does not begin with one of
      the characters that continue a placeholder. */
  predicate StartsFresh(s: string) {
    s == "" || (s[0] != '{' && s[0] != '}' && !IsWordChar(s[0]))
  }

  lemma WordLengthOfConcat(a: string, b: string)
    requires StartsFresh(b)
    ensures WordLength(a + b) == WordLength(a)
  {
    if a == "" {
      assert a + b == b;
    } else {
      assert (a + b)[1..] == a[1..] + b;
    }
  }

  lemma PlaceholderOfConcat(a: string, b: string)
    requires a != "" && StartsFresh(b)
    ensures Placeholder(a + b) == Placeholder(a)
  {
    if |a| >= 2 && a[0] == '$' && a[1] == '{' {
      assert (a + b)[2..] == a[2..] + b;
      WordLengthOfConcat(a[2..], b);
      var n := WordLength(a[2..]);
      assert (a[2..] + b)[..n] == a[2..][..n];
    }
  }

  lemma ReplaceStep(s: string, vars: Vars)
    requires s != ""
    ensures match Placeholder(s)
      case Some(k) => s == Hole(k) + s[|k| + 3..] && Replace(s, vars) == ValueOf(k, vars) + Replace(s[|k| + 3..], vars)
      case None => Replace(s, vars) == [s[0]] + Replace(s[1..], vars)
  {
    assert Step(s, vars).0 <= |s|;
  }

  lemma StepOfConcat(a: string, b: string, vars: Vars)
    requires a != "" && StartsFresh(b)
    ensures Step(a + b, vars) == Step(a, vars)
  {
    PlaceholderOfConcat(a, b);
  }

  lemma AppendThree(r: string, a: string, b: string, c: string)
    requires r == a + (b + c)
    ensures r == a + b + c
  {
  }

  lemma DropOfConcat(a: string, b: string, n: nat)
    requires n <= |a|
    ensures (a + b)[n..] == a[n..] + b
  {
  }

  lemma ReplaceUnfolds(s: string, vars: Vars)
    requires s != ""
    ensures Replace(s, vars) == Step(s, vars).1 + Replace(s[Step(s, vars).0..], vars)
  {
  }

  lemma AppendEmpty(s: string)
    ensures "" + s == s
  {
  }

  /** One step of the scan on a text and on the text it begins. */
  lemma UnfoldBoth(a: string, b: string, vars: Vars)
    requires a != "" && Step(a + b, vars) == Step(a, vars)
    requires var n := Step(a, vars).0; Replace(a[n..] + b, vars) == Replace(a[n..], vars) + Replace(b, vars)
    ensures Replace(a + b, vars) == Replace(a, vars) + Replace(b, vars)
  {
    var (n, out) := Step(a, vars);
    ReplaceUnfolds(a, vars);
    ReplaceUnfolds(a + b, vars);
    DropOfConcat(a, b, n);
    AppendThree(Replace(a + b, vars), out, Replace(a[n..], vars), Replace(b, vars));
  }

  lemma {:induction false} ReplaceOfConcat(a: string, b: string, vars: Vars)
    requires StartsFresh(b)
    ensures Replace(a + b, vars) == Replace(a, vars) + Replace(b, vars)
    decreases |a|
  {
    if a == "" {
      AppendEmpty(b);
      AppendEmpty(Replace(b, vars));
    } else {
      StepOfConcat(a, b, vars);
      var n := Step(a, vars).0;
      ReplaceOfConcat(a[n..], b, vars);
      UnfoldBoth(a, b, vars);
    }
  }

  /** Every placeholder is replaced wherever it stands, and the text around it is treated
      as if it stood alone. */
  lemma HoleIsReplaced(a: string, k: string, b: string, vars: Vars)
    requires IsWord(k)
    ensures Replace(a + Hole(k) + b, vars) == Replace(a, vars) + ValueOf(k, vars) + Replace(b, vars)
  {
    var h := Hole(k) + b;
    AppendThree(a + h, a, Hole(k), b);
    ReplaceOfConcat(a, h, vars);
    HoleStarts(k, b);
    ReplaceUnfolds(h, vars);
    DropOfConcat(Hole(k), b, |k| + 3);
    AppendThree(Replace(a + h, vars), Replace(a, vars), ValueOf(k, vars), Replace(b, vars));
  }

  lemma {:induction false} WordLengthOfWord(k: string, b: string)
    requires forall i :: 0 <= i < |k| ==> IsWordChar(k[i])
    requires b == "" || !IsWordChar(b[0])
    ensures WordLength(k + b) == |k|
  {
    if k == "" {
      assert k + b == b;
    } else {
      assert (k + b)[1..] == k[1..] + b;
      WordLengthOfWord(k[1..], b);
    }
  }

  lemma HoleStarts(k: string, b: string)
    requires IsWord(k)
    ensures Placeholder(Hole(k) + b) == Some(k)
  {
    var s := Hole(k) + b;
    assert s[2..] == k + ("}" + b);
    WordLengthOfWord(k, "}" + b);
    assert s[2..2 + |k|] == k;
  }

  lemma Reassemble(a: string, r: string)
    requires a != ""
    ensures [a[0]] + (a[1..] + r) == a + r
  {
  }

  lemma {:induction false} ReplaceNothing(a: string, b: string, vars: Vars)
    requires '$' !in a
    ensures Replace(a + b, vars) == a + Replace(b, vars)
  {
    if a == "" {
      AppendEmpty(b);
      AppendEmpty(Replace(b, vars));
    } else {
      ReplaceNothing(a[1..], b, vars);
      DropOfConcat(a, b, 1);
      ReplaceUnfolds(a + b, vars);
      Reassemble(a, Replace(b, vars));
    }
  }

  /** A letter of either case, digits and the underscore make a name: a placeholder around any
      such name, and standing anywhere, becomes the value of that name, or stays when it has none. */
  lemma PlaceholderIsReplaced(a: string, k: string, b: string, vars: Vars)
    requires k != "" && forall i :: 0 <= i < |k| ==>
      'a' <= k[i] <= 'z' || 'A' <= k[i] <= 'Z' || '0' <= k[i] <= '9' || k[i] == '_'
    ensures Replace(a + "${" + k + "}" + b, vars) ==
      Replace(a, vars) + (if k in vars then vars[k] else "${" + k + "}") + Replace(b, vars)
  {
    assert a + "${" + k + "}" + b == a + Hole(k) + b;
    HoleIsReplaced(a, k, b, vars);
  }

  /** The pattern of the source, a dollar sign, a name in braces, at the start of a text. */
  ghost predicate PatternMatches(s: string) {
    exists k: string :: |k| > 0 && "${" + k + "}" <= s && forall i :: 0 <= i < |k| ==>
      'a' <= k[i] <= 'z' || 'A' <= k[i] <= 'Z' || '0' <= k[i] <= '9' || k[i] == '_'
  }

  lemma FoundMeansMatched(s: string)
    ensures Placeholder(s).Some? ==> PatternMatches(s)
  {
    if Placeholder(s).Some? {
      var k := Placeholder(s).value;
      assert s[..|k| + 3] == "${" + k + "}";
      assert forall i :: 0 <= i < |k| ==> IsWordChar(k[i]);
    }
  }

  /** A text in which the pattern matches nowhere is left as it is. Together with
      PlaceholderIsReplaced this determines the replacement of every text. */
  lemma {:induction false} NothingElseIsReplaced(s: string, vars: Vars)
    requires forall i :: 0 <= i <= |s| ==> !PatternMatches(s[i..])
    ensures Replace(s, vars) == s
    decreases |s|
  {
    if s != "" {
      FoundMeansMatched(s);
      assert s[0..] == s;
      forall i | 0 <= i <= |s| - 1 ensures !PatternMatches(s[1..][i..]) {
        assert s[1..][i..] == s[i + 1..];
      }
      NothingElseIsReplaced(s[1..], vars);
      ReplaceUnfolds(s, vars);
      Reassemble(s, "");
    }
  }

  /** Braces around anything that is not a name are text. The name ends at the first closing
      brace, so only content without one is in question. */
  lemma OtherBracesStay(k: string, vars: Vars)
    requires '$' !in k && '}' !in k
    requires k == "" || !(forall i :: 0 <= i < |k| ==>
      'a' <= k[i] <= 'z' || 'A' <= k[i] <= 'Z' || '0' <= k[i] <= '9' || k[i] == '_')
    ensures Replace("${" + k + "}", vars) == "${" + k + "}"
  {
    var s := "${" + k + "}";
    forall i | 0 <= i <= |s| ensures !PatternMatches(s[i..]) {
      forall w: string | "${" + w + "}" <= s[i..] ensures w == k {
        MatchIsWhole(k, w, i);
      }
    }
    NothingElseIsReplaced(s, vars);
  }

  lemma MatchIsWhole(k: string, w: string, i: nat)
    requires '$' !in k && '}' !in k && i <= |k| + 3
    requires "${" + w + "}" <= ("${" + k + "}")[i..]
    ensures w == k
  {
    var s, h := "${" + k + "}", "${" + w + "}";
    assert s[i..][0] == h[0] == '$';
    assert s[i] == '$';
    assert i == 0;
    assert forall j :: 0 <= j < |h| ==> s[j] == h[j];
    assert h[|w| + 2] == '}';
    assert |w| == |k|;
    assert forall j :: 0 <= j < |k| ==> k[j] == s[j + 2] == h[j + 2] == w[j];
  }

  /** Content with a closing brace is another matter: its part before the brace may be a name. */
  lemma InnerNameIsReplaced(w: string, t: string, vars: Vars)
    requires |w| > 0 && forall i :: 0 <= i < |w| ==>
      'a' <= w[i] <= 'z' || 'A' <= w[i] <= 'Z' || '0' <= w[i] <= '9' || w[i] == '_'
    requires '$' !in t && w in vars
    ensures Replace("${" + (w + "}" + t) + "}", vars) == vars[w] + (t + "}")
  {
    var rest := t + "}";
    PlaceholderIsReplaced("", w, rest, vars);
    InnerText("${", w, "}", t);
    ReplaceNothing(rest, "", vars);
    NothingAround(rest, vars[w]);
    assert Replace("", vars) == "";
  }

  lemma InnerText(open: string, w: string, close: string, t: string)
    ensures "" + open + w + close + (t + close) == open + (w + close + t) + close
  {
  }

  lemma NothingAround(rest: string, v: string)
    ensures rest + "" == rest && "" + v + rest == v + rest
  {
  }

  // ---------------------------------------------------------------- replacement inside a string literal

  /** The value needs no JSON escaping. */
  predicate Plain(v: string) {
    forall i :: 0 <= i < |v| ==> v[i] != '"' && v[i] != '\\' && v[i] >= ' '
  }

  predicate PlainVars(vars: Vars) {
    forall k <- vars :: Plain(vars[k])
  }

  lemma {:induction false} EscapeOfPlain(v: string)
    requires Plain(v)
    ensures Escape(v) == v
  {
    if v != "" {
      EscapeOfPlain(v[1..]);
      assert v == [v[0]] + v[1..];
    }
  }

  lemma {:induction false} EscapeOfConcat(a: string, b: string)
    ensures Escape(a + b) == Escape(a) + Escape(b)
  {
    if a == "" {
      assert a + b == b;
    } else {
      assert (a + b)[1..] == a[1..] + b;
      EscapeOfConcat(a[1..], b);
    }
  }

  predicate IsTemplateChar(c: char) {
    c == '$' || c == '{' || c == '}' || IsWordChar(c)
  }

  lemma EscapeCharKind(c: char)
    ensures EscapeChar(c) != ""
    ensures IsTemplateChar(c) ==> EscapeChar(c) == [c]
    ensures !IsTemplateChar(c) ==> !IsTemplateChar(EscapeChar(c)[0]) && '$' !in EscapeChar(c)
  {
  }

  lemma EscapeHead(s: string)
    ensures Escape(s) == "" <==> s == ""
    ensures s != "" && IsTemplateChar(s[0]) ==> Escape(s) == [s[0]] + Escape(s[1..])
    ensures s != "" && !IsTemplateChar(s[0]) ==> !IsTemplateChar(Escape(s)[0])
  {
    if s != "" {
      EscapeCharKind(s[0]);
      assert Escape(s)[0] == EscapeChar(s[0])[0];
    }
  }

  lemma EscapeOfWordRun(s: string)
    ensures var n := WordLength(s);
      Escape(s) == s[..n] + Escape(s[n..]) && WordLength(Escape(s)) == n
  {
    var n := WordLength(s);
    assert s == s[..n] + s[n..];
    EscapeOfPlain(s[..n]);
    EscapeOfConcat(s[..n], s[n..]);
    EscapeHead(s[n..]);
    WordLengthOfWord(s[..n], Escape(s[n..]));
  }

  lemma BodyOfEscape(s: string)
    ensures PlaceholderBody(Escape(s)) == PlaceholderBody(s)
  {
    var n, e := WordLength(s), Escape(s);
    EscapeOfWordRun(s);
    EscapeHead(s[n..]);
    assert e[..n] == s[..n];
    assert n < |e| <==> n < |s|;
    assert n < |e| ==> e[n] == Escape(s[n..])[0] && s[n] == s[n..][0];
  }

  lemma PlaceholderOfEscape(s: string)
    ensures Placeholder(Escape(s)) == Placeholder(s)
  {
    var e := Escape(s);
    EscapeHead(s);
    if s != "" && s[0] == '$' {
      var t := s[1..];
      EscapeHead(t);
      assert e[1..] == Escape(t);
      assert t != "" ==> e[1] == Escape(t)[0] && s[1] == t[0];
      if t != "" && t[0] == '{' {
        assert t[1..] == s[2..] && e[2..] == e[1..][1..] == Escape(s[2..]);
        BodyOfEscape(s[2..]);
      }
    }
  }

  lemma EscapeOfHole(k: string, rest: string, vars: Vars)
    requires IsWord(k) && PlainVars(vars)
    ensures Escape(Hole(k) + rest) == Hole(k) + Escape(rest)
    ensures Escape(ValueOf(k, vars) + rest) == ValueOf(k, vars) + Escape(rest)
  {
    assert Plain(Hole(k));
    EscapeOfPlain(Hole(k));
    EscapeOfConcat(Hole(k), rest);
    EscapeOfPlain(ValueOf(k, vars));
    EscapeOfConcat(ValueOf(k, vars), rest);
  }

  lemma ReplaceOfEscapedChar(c: char, s: string, vars: Vars)
    requires Placeholder(Escape([c] + s)).None?
    ensures Replace(Escape([c] + s), vars) == EscapeChar(c) + Replace(Escape(s), vars)
  {
    var e := Escape([c] + s);
    assert ([c] + s)[1..] == s;
    EscapeCharKind(c);
    assert e == EscapeChar(c) + Escape(s);
    if c == '$' {
      ReplaceStep(e, vars);
      assert e[1..] == Escape(s);
    } else {
      ReplaceNothing(EscapeChar(c), Escape(s), vars);
    }
  }

  lemma {:induction false} ReplaceOfEscape(s: string, vars: Vars)
    requires PlainVars(vars)
    ensures Replace(Escape(s), vars) == Escape(Replace(s, vars))
    decreases |s|
  {
    if s != "" {
      PlaceholderOfEscape(s);
      ReplaceStep(s, vars);
      match Placeholder(s) {
        case Some(k) =>
          var rest := s[|k| + 3..];
          ReplaceOfEscape(rest, vars);
          EscapeOfHole(k, rest, vars);
          EscapeOfHole(k, Replace(rest, vars), vars);
          ReplaceStep(Escape(s), vars);
          assert Escape(s)[|k| + 3..] == Escape(rest);
        case None =>
          ReplaceOfEscape(s[1..], vars);
          assert s == [s[0]] + s[1..];
          ReplaceOfEscapedChar(s[0], s[1..], vars);
          assert ([s[0]] + Replace(s[1..], vars))[1..] == Replace(s[1..], vars);
      }
    }
  }

  /** Replacement goes inside a bracketed text when the brackets hold no `$`. */
  lemma ReplaceWrapped(open: string, body: string, body': string, close: string, rest: string, vars: Vars)
    requires '$' !in open && '$' !in close
    requires Replace(body + (close + rest), vars) == body' + Replace(close + rest, vars)
    ensures Replace(open + body + close + rest, vars) == open + body' + close + Replace(rest, vars)
  {
    var r := Replace(rest, vars);
    ReplaceNothing(close, rest, vars);
    ReplaceNothing(open, body + (close + rest), vars);
    Associate(open, body, close, rest);
    Associate(open, body', close, r);
  }

  lemma Associate(a: string, b: string, c: string, d: string)
    ensures a + b + c + d == a + (b + (c + d))
  {
  }

  lemma ReplaceOfQuote(s: string, rest: string, vars: Vars)
    requires PlainVars(vars)
    ensures Replace(Quote(s) + rest, vars) == Quote(Replace(s, vars)) + Replace(rest, vars)
  {
    var q := "\"";
    ReplaceOfConcat(Escape(s), q + rest, vars);
    ReplaceOfEscape(s, vars);
    ReplaceWrapped(q, Escape(s), Escape(Replace(s, vars)), q, rest, vars);
  }

  // ---------------------------------------------------------------- structural substitution

  /** Replaces placeholders in every string of the value, object keys included. */
  function Subst(j: Json, vars: Vars): Json {
    match j
    case Str(s) => Str(Replace(s, vars))
    case Arr(es) => Arr(SubstElems(es, vars))
    case Obj(ms) => Obj(SubstMembers(ms, vars))
    case _ => j
  }

  function SubstElems(es: Elems, vars: Vars): Elems {
    match es
    case ENil => ENil
    case ECons(j, tail) => ECons(Subst(j, vars), SubstElems(tail, vars))
  }

  function SubstMembers(ms: Members, vars: Vars): Members {
    match ms
    case MNil => MNil
    case MCons(k, j, rest) => MCons(Replace(k, vars), Subst(j, vars), SubstMembers(rest, vars))
  }

  /** Replaces placeholders in string leaves only: what a template author means. */
  function SubstLeaves(j: Json, vars: Vars): Json {
    match j
    case Str(s) => Str(Replace(s, vars))
    case Arr(es) => Arr(SubstLeavesElems(es, vars))
    case Obj(ms) => Obj(SubstLeavesMembers(ms, vars))
    case _ => j
  }

  function SubstLeavesElems(es: Elems, vars: Vars): Elems {
    match es
    case ENil => ENil
    case ECons(j, tail) => ECons(SubstLeaves(j, vars), SubstLeavesElems(tail, vars))
  }

  function SubstLeavesMembers(ms: Members, vars: Vars): Members {
    match ms
    case MNil => MNil
    case MCons(k, j, rest) => MCons(k, SubstLeaves(j, vars), SubstLeavesMembers(rest, vars))
  }

  /** No object key is changed by the replacement. */
  predicate KeysFixed(j: Json, vars: Vars) {
    match j
    case Arr(es) => KeysFixedElems(es, vars)
    case Obj(ms) => KeysFixedMembers(ms, vars)
    case _ => true
  }

  predicate KeysFixedElems(es: Elems, vars: Vars) {
    es.ECons? ==> KeysFixed(es.head, vars) && KeysFixedElems(es.tail, vars)
  }

  predicate KeysFixedMembers(ms: Members, vars: Vars) {
    ms.MCons? ==>
      Replace(ms.key, vars) == ms.key && KeysFixed(ms.value, vars) && KeysFixedMembers(ms.rest, vars)
  }

  /** The two substitutions agree exactly when the replacement changes no object key. */
  lemma LeavesOnlyIffKeysFixed(j: Json, vars: Vars)
    ensures Subst(j, vars) == SubstLeaves(j, vars) <==> KeysFixed(j, vars)
  {
    match j
    case Arr(es) => LeavesOnlyElems(es, vars);
    case Obj(ms) => LeavesOnlyMembers(ms, vars);
    case _ =>
  }

  lemma {:induction false} LeavesOnlyElems(es: Elems, vars: Vars)
    ensures SubstElems(es, vars) == SubstLeavesElems(es, vars) <==> KeysFixedElems(es, vars)
  {
    if es.ECons? {
      LeavesOnlyIffKeysFixed(es.head, vars);
      LeavesOnlyElems(es.tail, vars);
    }
  }

  lemma {:induction false} LeavesOnlyMembers(ms: Members, vars: Vars)
    ensures SubstMembers(ms, vars) == SubstLeavesMembers(ms, vars) <==> KeysFixedMembers(ms, vars)
  {
    if ms.MCons? {
      LeavesOnlyIffKeysFixed(ms.value, vars);
      LeavesOnlyMembers(ms.rest, vars);
    }
  }

  /** A value with the contents of its strings forgotten. */
  function Shape(j: Json): Json {
    match j
    case Str(s) => Str("")
    case Arr(es) => Arr(ShapeElems(es))
    case Obj(ms) => Obj(ShapeMembers(ms))
    case _ => j
  }

  function ShapeElems(es: Elems): Elems {
    match es
    case ENil => ENil
    case ECons(j, tail) => ECons(Shape(j), ShapeElems(tail))
  }

  function ShapeMembers(ms: Members): Members {
    match ms
    case MNil => MNil
    case MCons(k, j, rest) => MCons(k, Shape(j), ShapeMembers(rest))
  }

  lemma SubstKeepsShape(j: Json, vars: Vars)
    ensures Shape(SubstLeaves(j, vars)) == Shape(j)
    ensures WellFormed(j) ==> WellFormed(Subst(j, vars))
  {
    match j
    case Arr(es) => SubstKeepsShapeElems(es, vars);
    case Obj(ms) => SubstKeepsShapeMembers(ms, vars);
    case _ =>
  }

  lemma {:induction false} SubstKeepsShapeElems(es: Elems, vars: Vars)
    ensures ShapeElems(SubstLeavesElems(es, vars)) == ShapeElems(es)
    ensures WellFormedElems(es) ==> WellFormedElems(SubstElems(es, vars))
  {
    if es.ECons? {
      SubstKeepsShape(es.head, vars);
      SubstKeepsShapeElems(es.tail, vars);
    }
  }

  lemma {:induction false} SubstKeepsShapeMembers(ms: Members, vars: Vars)
    ensures ShapeMembers(SubstLeavesMembers(ms, vars)) == ShapeMembers(ms)
    ensures WellFormedMembers(ms) ==> WellFormedMembers(SubstMembers(ms, vars))
  {
    if ms.MCons? {
      SubstKeepsShape(ms.value, vars);
      SubstKeepsShapeMembers(ms.rest, vars);
    }
  }

  // ---------------------------------------------------------------- text and structure agree

  lemma {:induction false} ReplaceOfStringify(j: Json, rest: string, vars: Vars)
    requires WellFormed(j) && PlainVars(vars)
    ensures Replace(Stringify(j) + rest, vars) == Stringify(Subst(j, vars)) + Replace(rest, vars)
    decreases j
  {
    match j
    case Str(s) => ReplaceOfQuote(s, rest, vars);
    case Arr(es) =>
      ReplaceOfElems(es, "]" + rest, vars);
      ReplaceWrapped("[", StringifyElems(es), StringifyElems(SubstElems(es, vars)), "]", rest, vars);
    case Obj(ms) =>
      ReplaceOfMembers(ms, "}" + rest, vars);
      ReplaceWrapped("{", StringifyMembers(ms), StringifyMembers(SubstMembers(ms, vars)), "}", rest, vars);
    case _ => ReplaceNothing(Stringify(j), rest, vars);
  }

  /** What follows an element of a non-empty list of elements. */
  function ElemsTail(es: Elems, rest: string): string
    requires es.ECons?
  {
    if es.tail.ENil? then rest else "," + (StringifyElems(es.tail) + rest)
  }

  lemma ElemsText(es: Elems, rest: string)
    requires es.ECons?
    ensures StringifyElems(es) + rest == Stringify(es.head) + ElemsTail(es, rest)
  {
  }

  lemma {:induction false} ReplaceOfElems(es: Elems, rest: string, vars: Vars)
    requires WellFormedElems(es) && PlainVars(vars)
    ensures Replace(StringifyElems(es) + rest, vars) == StringifyElems(SubstElems(es, vars)) + Replace(rest, vars)
    decreases es
  {
    if es.ENil? {
      assert StringifyElems(es) + rest == rest;
    } else {
      var es' := SubstElems(es, vars);
      ElemsText(es, rest);
      ElemsText(es', Replace(rest, vars));
      ReplaceOfStringify(es.head, ElemsTail(es, rest), vars);
      if es.tail.ECons? {
        ReplaceNothing(",", StringifyElems(es.tail) + rest, vars);
        ReplaceOfElems(es.tail, rest, vars);
      }
    }
  }

  lemma MembersSplit(ms: Members, rest: string)
    requires ms.MCons?
    ensures StringifyMembers(ms) + rest == Quote(ms.key) + (":" + (Stringify(ms.value) + MembersTail(ms, rest)))
  {
    MembersText(ms, rest);
    Associate(Quote(ms.key), ":", Stringify(ms.value), MembersTail(ms, rest));
  }

  lemma {:induction false} ReplaceOfMembers(ms: Members, rest: string, vars: Vars)
    requires WellFormedMembers(ms) && PlainVars(vars)
    ensures Replace(StringifyMembers(ms) + rest, vars) == StringifyMembers(SubstMembers(ms, vars)) + Replace(rest, vars)
    decreases ms
  {
    if ms.MNil? {
      assert StringifyMembers(ms) + rest == rest;
    } else {
      var ms' := SubstMembers(ms, vars);
      var valueText := Stringify(ms.value) + MembersTail(ms, rest);
      MembersSplit(ms, rest);
      MembersSplit(ms', Replace(rest, vars));
      ReplaceOfQuote(ms.key, ":" + valueText, vars);
      ReplaceNothing(":", valueText, vars);
      ReplaceOfStringify(ms.value, MembersTail(ms, rest), vars);
      if ms.rest.MCons? {
        ReplaceNothing(",", StringifyMembers(ms.rest) + rest, vars);
        ReplaceOfMembers(ms.rest, rest, vars);
      }
    }
  }

  /** `interpolatePayload`: None stands for a thrown SyntaxError. */
  function InterpolatePayload(payload: Json, vars: Vars): Option<Json> {
    if payload.Null? then Some(payload) else Parse(Replace(Stringify(payload), vars))
  }

  lemma InterpolatedText(payload: Json, vars: Vars)
    requires WellFormed(payload) && PlainVars(vars)
    ensures Replace(Stringify(payload), vars) == Stringify(Subst(payload, vars))
  {
    var text := Stringify(Subst(payload, vars));
    ReplaceOfStringify(payload, "", vars);
    assert Stringify(payload) + "" == Stringify(payload);
    assert Replace("", vars) == "" && text + "" == text;
  }

  /** Replacing in the text is substituting in the strings, for every payload; of keys that
      the replacement makes equal the last one counts. The substitution itself comes back
      exactly when it makes no two keys of an object equal. */
  lemma InterpolateIsSubst(payload: Json, vars: Vars)
    requires WellFormed(payload) && PlainVars(vars)
    ensures InterpolatePayload(payload, vars) == Some(Canonical(Subst(payload, vars)))
    ensures InterpolatePayload(payload, vars) == Some(Subst(payload, vars)) <==> DistinctKeys(Subst(payload, vars))
  {
    InterpolatedText(payload, vars);
    SubstKeepsShape(payload, vars);
    PrintedIsParsed(Subst(payload, vars));
    RoundTrip(Subst(payload, vars));
  }

  lemma SubstKeepsSize(j: Json, vars: Vars)
    ensures Size(Subst(j, vars)) == Size(j) == Size(SubstLeaves(j, vars))
    ensures DistinctKeys(SubstLeaves(j, vars)) <==> DistinctKeys(j)
  {
    match j
    case Arr(es) => SubstKeepsSizeElems(es, vars);
    case Obj(ms) => SubstKeepsSizeMembers(ms, vars);
    case _ =>
  }

  lemma {:induction false} SubstKeepsSizeElems(es: Elems, vars: Vars)
    ensures SizeElems(SubstElems(es, vars)) == SizeElems(es) == SizeElems(SubstLeavesElems(es, vars))
    ensures DistinctElems(SubstLeavesElems(es, vars)) <==> DistinctElems(es)
  {
    if es.ECons? {
      SubstKeepsSize(es.head, vars);
      SubstKeepsSizeElems(es.tail, vars);
    }
  }

  lemma {:induction false} SubstKeepsSizeMembers(ms: Members, vars: Vars)
    ensures SizeMembers(SubstMembers(ms, vars)) == SizeMembers(ms) == SizeMembers(SubstLeavesMembers(ms, vars))
    ensures DistinctMembers(SubstLeavesMembers(ms, vars)) <==> DistinctMembers(ms)
    ensures forall k :: HasKey(SubstLeavesMembers(ms, vars), k) <==> HasKey(ms, k)
  {
    if ms.MCons? {
      SubstKeepsSize(ms.value, vars);
      SubstKeepsSizeMembers(ms.rest, vars);
    }
  }

  /** A payload, which like every JavaScript value repeats no key, comes back with its shape,
      keys, numbers and lengths, and with the placeholders of its string leaves replaced,
      exactly when the replacement changes no key. */
  lemma InterpolateKeepsShape(payload: Json, vars: Vars)
    requires WellFormed(payload) && DistinctKeys(payload) && PlainVars(vars)
    ensures InterpolatePayload(payload, vars) == Some(SubstLeaves(payload, vars)) <==> KeysFixed(payload, vars)
    ensures Shape(SubstLeaves(payload, vars)) == Shape(payload)
  {
    InterpolateIsSubst(payload, vars);
    LeavesOnlyIffKeysFixed(payload, vars);
    SubstKeepsShape(payload, vars);
    SubstKeepsSize(payload, vars);
    CanonicalShrinks(Subst(payload, vars));
    if KeysFixed(payload, vars) {
      DistinctIsCanonical(SubstLeaves(payload, vars));
    }
  }

  // ---------------------------------------------------------------- values that need escaping

  /** Reading a literal never yields more characters than it is made of, and as many only
      when every character stands for itself. */
  lemma {:induction false} LiteralLength(s: string)
    ensures match ParseChars(s)
      case Some((v, rest)) =>
        |v| + 1 + |rest| <= |s| && (|v| + 1 + |rest| == |s| ==> Plain(v) && s == v + "\"" + rest)
      case None => true
    decreases |s|
  {
    if s != "" && s[0] != '"' && s[0] >= ' ' {
      if s[0] == '\\' {
        match ParseEscape(s[1..]) {
          case Some((c, n)) => LiteralLength(s[1 + n..]);
          case None =>
        }
      } else {
        LiteralLength(s[1..]);
        match ParseChars(s[1..]) {
          case Some((v, rest)) =>
            if |v| + 1 + |rest| == |s| - 1 {
              assert s == [s[0]] + s[1..] == [s[0]] + v + "\"" + rest;
            }
          case None =>
        }
      }
    }
  }

  lemma HoleText(k: string, vars: Vars)
    requires IsWord(k) && k in vars
    ensures Replace(Stringify(Str(Hole(k))), vars) == "\"" + vars[k] + "\""
  {
    EscapeOfPlain(Hole(k));
    assert Stringify(Str(Hole(k))) == "\"" + Hole(k) + "\"";
    HoleIsReplaced("\"", k, "\"", vars);
    assert Replace("\"", vars) == "\"";
  }

  /** Text between quotes reads as itself exactly when it needs no escaping. */
  lemma QuotedIsItselfIffPlain(v: string)
    ensures Parse("\"" + v + "\"") == Some(Str(v)) <==> Plain(v)
  {
    var text := "\"" + v + "\"";
    assert text[0] == '"' && text[1..] == v + "\"";
    if Plain(v) {
      EscapeOfPlain(v);
      RoundTrip(Str(v));
      assert Stringify(Str(v)) == text;
    } else {
      LiteralLength(v + "\"");
    }
  }

  /** A placeholder standing alone delivers its value exactly when the value needs no
      escaping: any other value breaks the payload or changes it. */
  lemma ValueArrivesIffPlain(k: string, vars: Vars)
    requires IsWord(k) && k in vars
    ensures InterpolatePayload(Str(Hole(k)), vars) == Some(Str(vars[k])) <==> Plain(vars[k])
  {
    HoleText(k, vars);
    QuotedIsItselfIffPlain(vars[k]);
  }
}
