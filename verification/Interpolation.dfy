// The ${{...}} interpolator: what its scanner accepts, as a segmentation of the
// input, and when its two passes amount to one substitution.
module Interpolation {
  import opened Wrappers

  const OPEN := "${{"
  const CLOSE := "}}"

  // ----- Text -----

  predicate OccursAt(s: string, pat: string, i: int) {
    0 <= i && i + |pat| <= |s| && s[i..i + |pat|] == pat
  }

  ghost predicate IsFirst(s: string, pat: string, i: int) {
    OccursAt(s, pat, i) && forall j :: 0 <= j < i ==> !OccursAt(s, pat, j)
  }

  ghost predicate Absent(s: string, pat: string) {
    forall j :: !OccursAt(s, pat, j)
  }

  ghost predicate IsIndex(s: string, pat: string, i: int) {
    if i == -1 then Absent(s, pat) else IsFirst(s, pat, i)
  }

  lemma {:induction false} FirstUpTo(s: string, pat: string, n: nat) returns (i: int)
    ensures i == -1 || IsFirst(s, pat, i)
    ensures i == -1 ==> forall j :: 0 <= j < n ==> !OccursAt(s, pat, j)
  {
    if n == 0 {
      i := -1;
    } else {
      i := FirstUpTo(s, pat, n - 1);
      if i == -1 && OccursAt(s, pat, n - 1) {
        i := n - 1;
      }
    }
  }

  lemma IndexExists(s: string, pat: string)
    ensures exists i :: IsIndex(s, pat, i)
  {
    var k := FirstUpTo(s, pat, |s| + 1);
    assert IsIndex(s, pat, k);
  }

  // strings.Index: the first occurrence, or -1.
  ghost function Find(s: string, pat: string): (i: int)
    ensures IsIndex(s, pat, i)
  {
    IndexExists(s, pat);
    var i :| IsIndex(s, pat, i);
    i
  }

  lemma FirstIsFound(s: string, pat: string, i: int)
    requires IsFirst(s, pat, i)
    ensures Find(s, pat) == i
  {
  }

  method Index(s: string, pat: string) returns (i: int)
    ensures i == Find(s, pat)
  {
    i := 0;
    while i + |pat| <= |s|
      invariant 0 <= i
      invariant forall j :: 0 <= j < i ==> !OccursAt(s, pat, j)
    {
      if s[i..i + |pat|] == pat {
        FirstIsFound(s, pat, i);
        return;
      }
      i := i + 1;
    }
    i := -1;
  }

  // Unicode white space, as strings.TrimSpace removes it.
  predicate IsSpace(c: char) {
    c in {' ', '\t', '\n', '\r', '\U{0B}', '\U{0C}', '\U{85}', '\U{A0}', '\U{1680}', '\U{2028}', '\U{2029}',
          '\U{202F}', '\U{205F}', '\U{3000}'} || '\U{2000}' <= c <= '\U{200A}'
  }

  function TrimLeft(s: string): string {
    if s != "" && IsSpace(s[0]) then TrimLeft(s[1..]) else s
  }

  function TrimRight(s: string): string {
    if s != "" && IsSpace(s[|s| - 1]) then TrimRight(s[..|s| - 1]) else s
  }

  function TrimSpace(s: string): string {
    TrimRight(TrimLeft(s))
  }

  // ----- Segments -----

  // A text is literals and tokens in turn, beginning and ending with a literal.
  datatype Segments = Tail(lit: string) | Token(lit: string, body: string, rest: Segments)

  function Source(segs: Segments): string {
    match segs
    case Tail(lit) => lit
    case Token(lit, body, rest) => lit + OPEN + body + CLOSE + Source(rest)
  }

  // A literal holds no opening marker.
  ghost predicate PlainText(lit: string) {
    Absent(lit, OPEN)
  }

  // A token's body reaches to the first closing marker and names something.
  ghost predicate TokenBody(body: string) {
    && IsFirst(body + CLOSE, CLOSE, |body|)
    && TrimSpace(body) != "" && Absent(TrimSpace(body), OPEN)
  }

  ghost predicate WellFormed(segs: Segments) {
    match segs
    case Tail(lit) => PlainText(lit)
    case Token(lit, body, rest) => PlainText(lit) && TokenBody(body) && WellFormed(rest)
  }

  datatype Failure = Unclosed | Nested | Empty | Unresolved

  // The scanner alone.
  ghost function Scan(s: string): Result<Segments, Failure>
    decreases |s|
  {
    var idx := Find(s, OPEN);
    if idx == -1 then Ok(Tail(s))
    else
      var inner := s[idx + 3..];
      var end := Find(inner, CLOSE);
      if end == -1 then Err(Unclosed)
      else
        var expr := TrimSpace(inner[..end]);
        if Find(expr, OPEN) != -1 then Err(Nested)
        else if expr == "" then Err(Empty)
        else
          var rest := Scan(inner[end + 2..]);
          if rest.Err? then rest else Ok(Token(s[..idx], inner[..end], rest.value))
  }

  lemma ScanUnfolds(s: string, idx: int, end: int)
    requires Scan(s).Ok? && idx == Find(s, OPEN) && idx != -1 && end == Find(s[idx + 3..], CLOSE)
    ensures end != -1
    ensures var inner := s[idx + 3..];
            && Scan(inner[end + 2..]).Ok?
            && Scan(s).value == Token(s[..idx], inner[..end], Scan(inner[end + 2..]).value)
            && TrimSpace(inner[..end]) != "" && Absent(TrimSpace(inner[..end]), OPEN)
  {
  }

  // What the scanner accepts is exactly what has a segmentation, and the
  // segmentation it finds is the only one.
  lemma {:induction false} ScanIsSound(s: string)
    requires Scan(s).Ok?
    ensures WellFormed(Scan(s).value) && Source(Scan(s).value) == s
    decreases |s|
  {
    var idx := Find(s, OPEN);
    if idx != -1 {
      var inner := s[idx + 3..];
      var end := Find(inner, CLOSE);
      ScanUnfolds(s, idx, end);
      ScanIsSound(inner[end + 2..]);
      BeforeFirstIsPlain(s, idx);
      CutToken(s, idx, end);
      FirstInPrefix(inner, CLOSE, inner[..end]);
    }
  }

  lemma CutToken(s: string, idx: int, end: int)
    requires OccursAt(s, OPEN, idx) && OccursAt(s[idx + 3..], CLOSE, end)
    ensures var inner := s[idx + 3..];
            && inner == inner[..end] + CLOSE + inner[end + 2..]
            && s == s[..idx] + OPEN + inner[..end] + CLOSE + inner[end + 2..]
  {
    var inner := s[idx + 3..];
    assert s == s[..idx] + s[idx..idx + 3] + inner;
    assert inner == inner[..end] + inner[end..end + 2] + inner[end + 2..];
  }

  lemma BeforeFirstIsPlain(s: string, idx: int)
    requires IsFirst(s, OPEN, idx)
    ensures PlainText(s[..idx])
  {
    forall j ensures !OccursAt(s[..idx], OPEN, j) {
      if 0 <= j && j + 3 <= idx {
        assert s[..idx][j..j + 3] == s[j..j + 3];
        assert !OccursAt(s, OPEN, j);
      }
    }
  }

  lemma FirstInPrefix(s: string, pat: string, head: string)
    requires IsFirst(s, pat, |head|) && head + pat <= s
    ensures IsFirst(head + pat, pat, |head|)
  {
    var t := head + pat;
    assert t[|head|..] == pat;
    forall j | 0 <= j < |head| ensures !OccursAt(t, pat, j) {
      if OccursAt(t, pat, j) {
        assert s[j..j + |pat|] == t[j..j + |pat|];
        assert OccursAt(s, pat, j);
      }
    }
  }

  // An opening marker after plain text is the first one.
  lemma OpenAfterPlain(lit: string, rest: string)
    requires PlainText(lit)
    ensures IsFirst(lit + OPEN + rest, OPEN, |lit|)
  {
    var s := lit + OPEN + rest;
    assert s[|lit|..|lit| + 3] == OPEN;
    forall j | 0 <= j < |lit| ensures !OccursAt(s, OPEN, j) {
      var w := s[j..j + 3];
      if j + 3 <= |lit| {
        assert lit[j..j + 3] == w;
        assert !OccursAt(lit, OPEN, j);
      } else {
        // the window covers the marker's '$', where OPEN has a brace
        assert w[|lit| - j] == '$' && OPEN[|lit| - j] == '{';
      }
    }
  }

  lemma CloseAfterBody(body: string, rest: string)
    requires IsFirst(body + CLOSE, CLOSE, |body|)
    ensures IsFirst(body + CLOSE + rest, CLOSE, |body|)
  {
    var t, s := body + CLOSE, body + CLOSE + rest;
    assert s[|body|..|body| + 2] == CLOSE;
    forall j | 0 <= j < |body| ensures !OccursAt(s, CLOSE, j) {
      if OccursAt(s, CLOSE, j) {
        assert t[j..j + 2] == s[j..j + 2];
        assert OccursAt(t, CLOSE, j);
      }
    }
  }

  lemma TokenIsFound(lit: string, body: string, after: string)
    requires PlainText(lit) && TokenBody(body)
    ensures var s, inner := lit + OPEN + body + CLOSE + after, body + CLOSE + after;
            && Find(s, OPEN) == |lit| && s[|lit| + 3..] == inner && s[..|lit|] == lit
            && Find(inner, CLOSE) == |body| && inner[..|body|] == body && inner[|body| + 2..] == after
  {
    var s, inner := lit + OPEN + body + CLOSE + after, body + CLOSE + after;
    assert s == lit + OPEN + inner;
    OpenAfterPlain(lit, inner);
    FirstIsFound(s, OPEN, |lit|);
    CloseAfterBody(body, after);
    FirstIsFound(inner, CLOSE, |body|);
  }

  lemma {:induction false} ScanIsComplete(segs: Segments)
    requires WellFormed(segs)
    ensures Scan(Source(segs)) == Ok(segs)
  {
    match segs {
      case Tail(lit) =>
      case Token(lit, body, rest) =>
        TokenIsFound(lit, body, Source(rest));
        ScanIsComplete(rest);
    }
  }

  lemma SegmentationIsUnique(a: Segments, b: Segments)
    requires WellFormed(a) && WellFormed(b) && Source(a) == Source(b)
    ensures a == b
  {
    ScanIsComplete(a);
    ScanIsComplete(b);
  }

  // ----- One pass -----

  predicate IsSecret(expr: string) {
    "secrets." <= expr
  }

  // The value of an expression, already rendered inline; none stands for any
  // resolution error.
  type Resolver = string -> Option<string>

  // A token in a pass: resolved if it is the pass's business, else left as it is.
  function Rendered(resolve: Resolver, secretPass: bool, body: string): Option<string> {
    var expr := TrimSpace(body);
    if IsSecret(expr) == secretPass then resolve(expr) else Some(OPEN + body + CLOSE)
  }

  // resolvePass, in its own order of checks.
  ghost function Pass(resolve: Resolver, secretPass: bool, s: string): Result<string, Failure>
    decreases |s|
  {
    var idx := Find(s, OPEN);
    if idx == -1 then Ok(s)
    else
      var inner := s[idx + 3..];
      var end := Find(inner, CLOSE);
      if end == -1 then Err(Unclosed)
      else
        var expr := TrimSpace(inner[..end]);
        if Find(expr, OPEN) != -1 then Err(Nested)
        else if expr == "" then Err(Empty)
        else
          var v := Rendered(resolve, secretPass, inner[..end]);
          if v.None? then Err(Unresolved) else Prepend(s[..idx] + v.value, Pass(resolve, secretPass, inner[end + 2..]))
  }

  function Prepend(head: string, r: Result<string, Failure>): Result<string, Failure> {
    if r.Ok? then Ok(head + r.value) else r
  }

  // The first token of a text: where it opens and, relative to its body, closes.
  ghost predicate FirstToken(s: string, idx: int, end: int) {
    && Find(s, OPEN) == idx && 0 <= idx && idx + 3 <= |s|
    && Find(s[idx + 3..], CLOSE) == end && 0 <= end && end + 2 <= |s[idx + 3..]|
    && s[idx..idx + 3] == OPEN && s[idx + 3..][end..end + 2] == CLOSE
    && TrimSpace(s[idx + 3..][..end]) != "" && Find(TrimSpace(s[idx + 3..][..end]), OPEN) == -1
  }

  lemma PassUnfold(resolve: Resolver, secretPass: bool, s: string, idx: int, end: int, after: Result<string, Failure>)
    requires FirstToken(s, idx, end) && after == Pass(resolve, secretPass, s[idx + 3..][end + 2..])
    ensures var v := Rendered(resolve, secretPass, s[idx + 3..][..end]);
            Pass(resolve, secretPass, s) == if v.None? then Err(Unresolved) else Prepend(s[..idx] + v.value, after)
  {
  }

  // The scanning half of one turn: where the next token opens, and how long its
  // body is.
  method FindToken(rest: string, ghost resolve: Resolver, ghost secretPass: bool)
    returns (r: Result<Option<(int, int)>, Failure>)
    ensures r.Err? ==> Pass(resolve, secretPass, rest) == Err(r.error)
    ensures r == Ok(None) ==> Pass(resolve, secretPass, rest) == Ok(rest)
    ensures r.Ok? && r.value.Some? ==> FirstToken(rest, r.value.value.0, r.value.value.1)
  {
    var idx := Index(rest, OPEN);
    if idx == -1 {
      return Ok(None);
    }
    var inner := rest[idx + 3..];
    var end := Index(inner, CLOSE);
    if end == -1 {
      return Err(Unclosed);
    }
    var expr := TrimSpace(inner[..end]);
    var nested := Index(expr, OPEN);
    if nested != -1 {
      return Err(Nested);
    }
    if expr == "" {
      return Err(Empty);
    }
    return Ok(Some((idx, end)));
  }

  method RenderToken(resolve: Resolver, secretPass: bool, body: string) returns (text: Option<string>)
    ensures text == Rendered(resolve, secretPass, body)
  {
    var expr := TrimSpace(body);
    if IsSecret(expr) != secretPass {
      return Some(OPEN + body + CLOSE);
    }
    return resolve(expr);
  }

  // `rest` is the part of the input from the scanner's index on.
  method ResolvePass(resolve: Resolver, secretPass: bool, input: string) returns (r: Result<string, Failure>)
    ensures r == Pass(resolve, secretPass, input)
  {
    var result, rest := "", input;
    PrependNothing(Pass(resolve, secretPass, input));
    while rest != ""
      invariant Pass(resolve, secretPass, input) == Prepend(result, Pass(resolve, secretPass, rest))
      decreases |rest|
    {
      var token := FindToken(rest, resolve, secretPass);
      if token.Err? {
        return Err(token.error);
      }
      if token.value.None? {
        return Ok(result + rest);
      }
      var (idx, len) := token.value.value;
      PassUnfold(resolve, secretPass, rest, idx, len, Pass(resolve, secretPass, rest[idx + 3..][len + 2..]));
      var text := RenderToken(resolve, secretPass, rest[idx + 3..][..len]);
      if text.None? {
        return Err(Unresolved);
      }
      var onward := rest[idx + 3..][len + 2..];
      PrependTwice(result, rest[..idx] + text.value, Pass(resolve, secretPass, onward));
      result, rest := result + (rest[..idx] + text.value), onward;
    }
    PassOfNothing(resolve, secretPass);
    assert result + "" == result;
    return Ok(result);
  }

  lemma PassOfNothing(resolve: Resolver, secretPass: bool)
    ensures Pass(resolve, secretPass, "") == Ok("")
  {
  }

  lemma PrependNothing(r: Result<string, Failure>)
    ensures Prepend("", r) == r
  {
    if r.Ok? {
      assert "" + r.value == r.value;
    }
  }

  lemma PrependTwice(a: string, b: string, r: Result<string, Failure>)
    ensures Prepend(a, Prepend(b, r)) == Prepend(a + b, r)
  {
    if r.Ok? {
      assert a + (b + r.value) == a + b + r.value;
    }
  }

  // What a pass makes of a segmentation.
  function Substitute(resolve: Resolver, secretPass: bool, segs: Segments): Option<string> {
    match segs
    case Tail(lit) => Some(lit)
    case Token(lit, body, rest) =>
      var v, r := Rendered(resolve, secretPass, body), Substitute(resolve, secretPass, rest);
      if v.None? || r.None? then None else Some(lit + v.value + r.value)
  }

  // A pass succeeds exactly on a segmented input whose own tokens resolve, and
  // replaces those tokens and nothing else.
  lemma {:induction false} PassIsSubstitution(resolve: Resolver, secretPass: bool, s: string)
    ensures Pass(resolve, secretPass, s).Ok? <==>
            Scan(s).Ok? && Substitute(resolve, secretPass, Scan(s).value).Some?
    ensures Pass(resolve, secretPass, s).Ok? ==>
            Substitute(resolve, secretPass, Scan(s).value) == Some(Pass(resolve, secretPass, s).value)
    decreases |s|
  {
    var idx := Find(s, OPEN);
    if idx != -1 {
      var inner := s[idx + 3..];
      var end := Find(inner, CLOSE);
      if end != -1 {
        PassIsSubstitution(resolve, secretPass, inner[end + 2..]);
      }
    }
  }

  // Text without the marker goes through unchanged.
  lemma PlainTextIsUnchanged(resolve: Resolver, s: string)
    requires PlainText(s)
    ensures Pass(resolve, false, s) == Pass(resolve, true, s) == Ok(s)
  {
  }

  // ----- Both passes -----

  // Resolve: everything but secrets first, then secrets in what that produced.
  method Resolve(resolve: Resolver, raw: string) returns (r: Result<string, Failure>)
    ensures r == TwoPasses(resolve, raw)
  {
    if raw == "" {
      PassOfNothing(resolve, false);
      PassOfNothing(resolve, true);
      return Ok(raw);
    }
    var first := ResolvePass(resolve, false, raw);
    if first.Err? {
      return first;
    }
    r := ResolvePass(resolve, true, first.value);
  }

  ghost function TwoPasses(resolve: Resolver, s: string): Result<string, Failure> {
    var first := Pass(resolve, false, s);
    if first.Err? then first else Pass(resolve, true, first.value)
  }

  // One substitution of every token, in one go.
  function SubstituteAll(resolve: Resolver, segs: Segments): Option<string> {
    match segs
    case Tail(lit) => Some(lit)
    case Token(lit, body, rest) =>
      var v, r := resolve(TrimSpace(body)), SubstituteAll(resolve, rest);
      if v.None? || r.None? then None else Some(lit + v.value + r.value)
  }

  predicate IsTokenOf(segs: Segments, body: string) {
    match segs
    case Tail(_) => false
    case Token(_, b, rest) => b == body || IsTokenOf(rest, body)
  }

  // A value that can neither start, continue nor vanish inside a marker.
  ghost predicate Tame(v: string) {
    v != "" && forall i :: 0 <= i < |v| ==> v[i] != '$' && v[i] != '{'
  }

  ghost predicate TameValues(resolve: Resolver, segs: Segments) {
    forall body :: IsTokenOf(segs, body) && !IsSecret(TrimSpace(body)) && resolve(TrimSpace(body)).Some?
                   ==> Tame(resolve(TrimSpace(body)).value)
  }

  ghost predicate AllPlainResolve(resolve: Resolver, segs: Segments) {
    forall body :: IsTokenOf(segs, body) && !IsSecret(TrimSpace(body)) ==> resolve(TrimSpace(body)).Some?
  }

  // What the second pass ought to see: the secret tokens, with literals and
  // values run together in between.
  function Residue(resolve: Resolver, pre: string, segs: Segments): Segments
    decreases segs
  {
    match segs
    case Tail(lit) => Tail(pre + lit)
    case Token(lit, body, rest) =>
      var v := resolve(TrimSpace(body));
      if IsSecret(TrimSpace(body)) then Token(pre + lit, body, Residue(resolve, "", rest))
      else Residue(resolve, pre + lit + (if v.Some? then v.value else ""), rest)
  }

  lemma {:induction false} ResidueIsFirstPass(resolve: Resolver, pre: string, segs: Segments)
    requires AllPlainResolve(resolve, segs)
    ensures Substitute(resolve, false, segs).Some?
    ensures Source(Residue(resolve, pre, segs)) == pre + Substitute(resolve, false, segs).value
    decreases segs
  {
    match segs {
      case Tail(_) =>
      case Token(lit, body, rest) =>
        TokensOfRest(resolve, segs);
        var sub := Substitute(resolve, false, rest);
        if IsSecret(TrimSpace(body)) {
          ResidueIsFirstPass(resolve, "", rest);
          LiteralToken(pre, lit, body, sub.value);
          assert "" + sub.value == sub.value;
        } else {
          assert IsTokenOf(segs, body);
          var v := resolve(TrimSpace(body)).value;
          ResidueIsFirstPass(resolve, pre + lit + v, rest);
          assert pre + (lit + v + sub.value) == pre + lit + v + sub.value;
        }
    }
  }

  lemma TokensOfRest(resolve: Resolver, segs: Segments)
    requires segs.Token?
    ensures AllPlainResolve(resolve, segs) ==> AllPlainResolve(resolve, segs.rest)
    ensures TameValues(resolve, segs) ==> TameValues(resolve, segs.rest)
  {
    forall body | IsTokenOf(segs.rest, body) ensures IsTokenOf(segs, body) {}
  }

  lemma {:induction false} FirstPassNeedsPlain(resolve: Resolver, segs: Segments)
    ensures Substitute(resolve, false, segs).Some? ==> AllPlainResolve(resolve, segs)
  {
    match segs {
      case Tail(_) =>
      case Token(lit, body, rest) => FirstPassNeedsPlain(resolve, rest);
    }
  }

  lemma {:induction false} OnePassNeedsPlain(resolve: Resolver, segs: Segments)
    ensures SubstituteAll(resolve, segs).Some? ==> AllPlainResolve(resolve, segs)
  {
    match segs {
      case Tail(_) =>
      case Token(lit, body, rest) => OnePassNeedsPlain(resolve, rest);
    }
  }

  // Substituting the secrets of the residue is substituting everything.
  lemma {:induction false} ResidueSubstitutes(resolve: Resolver, pre: string, segs: Segments)
    requires AllPlainResolve(resolve, segs)
    ensures var all, two := SubstituteAll(resolve, segs), Substitute(resolve, true, Residue(resolve, pre, segs));
            two == if all.None? then None else Some(pre + all.value)
    decreases segs
  {
    match segs {
      case Tail(_) =>
      case Token(lit, body, rest) =>
        TokensOfRest(resolve, segs);
        var v, all := resolve(TrimSpace(body)), SubstituteAll(resolve, rest);
        if IsSecret(TrimSpace(body)) {
          ResidueSubstitutes(resolve, "", rest);
          if v.Some? && all.Some? {
            assert pre + lit + v.value + ("" + all.value) == pre + (lit + v.value + all.value);
          }
        } else {
          assert IsTokenOf(segs, body);
          ResidueSubstitutes(resolve, pre + lit + v.value, rest);
          if all.Some? {
            assert pre + lit + v.value + all.value == pre + (lit + v.value + all.value);
          }
        }
    }
  }

  // Tame text between two plain texts leaves the whole plain.
  lemma TameKeepsPlain(a: string, v: string, b: string)
    requires PlainText(a) && Tame(v) && PlainText(b)
    ensures PlainText(a + v + b)
  {
    var s := a + v + b;
    forall j ensures !OccursAt(s, OPEN, j) {
      if 0 <= j && j + 3 <= |s| {
        var w := s[j..j + 3];
        assert w[0] == s[j] && w[1] == s[j + 1] && w[2] == s[j + 2];
        if j + 3 <= |a| {
          assert a[j..j + 3] == w;
          assert !OccursAt(a, OPEN, j);
        } else if j >= |a| + |v| {
          assert b[j - |a| - |v|..j - |a| - |v| + 3] == w;
          assert !OccursAt(b, OPEN, j - |a| - |v|);
        } else {
          // some position of the window lies in v
          var k := if j >= |a| then 0 else |a| - j;
          assert w[k] == v[j + k - |a|];
          assert OPEN[k] == '$' || OPEN[k] == '{';
        }
      }
    }
  }

  ghost predicate ExtendsPlain(pre: string) {
    forall b {:trigger PlainText(pre + b)} :: PlainText(b) ==> PlainText(pre + b)
  }

  lemma {:induction false} ResidueIsWellFormed(resolve: Resolver, pre: string, segs: Segments)
    requires WellFormed(segs) && AllPlainResolve(resolve, segs) && TameValues(resolve, segs)
    requires ExtendsPlain(pre)
    ensures WellFormed(Residue(resolve, pre, segs))
    decreases segs
  {
    match segs {
      case Tail(lit) => assert PlainText(pre + lit);
      case Token(lit, body, rest) =>
        TokensOfRest(resolve, segs);
        assert PlainText(pre + lit);
        if IsSecret(TrimSpace(body)) {
          assert forall b: string :: "" + b == b;
          ResidueIsWellFormed(resolve, "", rest);
        } else {
          assert IsTokenOf(segs, body);
          var v := resolve(TrimSpace(body)).value;
          forall b | PlainText(b) ensures PlainText(pre + lit + v + b) {
            TameKeepsPlain(pre + lit, v, b);
          }
          ResidueIsWellFormed(resolve, pre + lit + v, rest);
        }
    }
  }

  // The second pass finds the secrets of the input, and nothing else, exactly
  // when running literals and values together makes no new marker.
  lemma SecondPassSeesSecrets(resolve: Resolver, s: string)
    requires Scan(s).Ok? && AllPlainResolve(resolve, Scan(s).value)
    ensures Pass(resolve, false, s).Ok?
    ensures var residue := Residue(resolve, "", Scan(s).value);
            Scan(Pass(resolve, false, s).value) == Ok(residue) <==> WellFormed(residue)
  {
    var segs := Scan(s).value;
    ScanIsSound(s);
    ResidueIsFirstPass(resolve, "", segs);
    PassIsSubstitution(resolve, false, s);
    var residue := Residue(resolve, "", segs);
    var first := Pass(resolve, false, s).value;
    assert first == Source(residue);
    if WellFormed(residue) {
      ScanIsComplete(residue);
    }
    if Scan(first) == Ok(residue) {
      ScanIsSound(first);
    }
  }

  // With tame values the two passes are one substitution: they succeed exactly
  // when the input has a segmentation whose tokens all resolve, and the result
  // is that segmentation with every token replaced by its value.
  lemma TwoPassesAreOne(resolve: Resolver, s: string)
    requires Scan(s).Ok? ==> TameValues(resolve, Scan(s).value)
    ensures TwoPasses(resolve, s).Ok? <==> Scan(s).Ok? && SubstituteAll(resolve, Scan(s).value).Some?
    ensures TwoPasses(resolve, s).Ok? ==> SubstituteAll(resolve, Scan(s).value) == Some(TwoPasses(resolve, s).value)
  {
    PassIsSubstitution(resolve, false, s);
    if Scan(s).Ok? {
      var segs := Scan(s).value;
      ScanIsSound(s);
      FirstPassNeedsPlain(resolve, segs);
      OnePassNeedsPlain(resolve, segs);
      if AllPlainResolve(resolve, segs) {
        SecondPassSeesSecrets(resolve, s);
        assert forall b: string :: "" + b == b;
        ResidueIsWellFormed(resolve, "", segs);
        ResidueSubstitutes(resolve, "", segs);
        PassIsSubstitution(resolve, true, Pass(resolve, false, s).value);
        var all := SubstituteAll(resolve, segs);
        assert all.Some? ==> "" + all.value == all.value;
      }
    }
  }

  // ----- Exactly when two passes are one substitution -----

  // Tokens that are not secrets read as the text they are, which is how the
  // second pass treats them.
  function Literalized(pre: string, segs: Segments): Segments
    decreases segs
  {
    match segs
    case Tail(lit) => Tail(pre + lit)
    case Token(lit, body, rest) =>
      if IsSecret(TrimSpace(body)) then Token(pre + lit, body, Literalized("", rest))
      else Literalized(pre + lit + OPEN + body + CLOSE, rest)
  }

  // All tokens are secrets, each with a body that reaches to the first closing marker.
  ghost predicate SecretTokens(segs: Segments) {
    match segs
    case Tail(_) => true
    case Token(_, body, rest) => IsSecret(TrimSpace(body)) && IsFirst(body + CLOSE, CLOSE, |body|) && SecretTokens(rest)
  }

  lemma {:induction false} LiteralizedSource(pre: string, segs: Segments)
    requires WellFormed(segs)
    ensures Source(Literalized(pre, segs)) == pre + Source(segs)
    ensures SecretTokens(Literalized(pre, segs))
    decreases segs
  {
    match segs {
      case Tail(_) =>
      case Token(lit, body, rest) =>
        if IsSecret(TrimSpace(body)) {
          LiteralizedSource("", rest);
          assert pre + lit + OPEN + body + CLOSE + ("" + Source(rest))
              == pre + (lit + OPEN + body + CLOSE + Source(rest));
        } else {
          LiteralizedSource(pre + lit + OPEN + body + CLOSE, rest);
          assert pre + lit + OPEN + body + CLOSE + Source(rest) == pre + (lit + OPEN + body + CLOSE + Source(rest));
        }
    }
  }

  function Prefixed(pre: string, text: Option<string>): Option<string> {
    if text.None? then None else Some(pre + text.value)
  }

  lemma {:induction false} LiteralizedSubstitutes(r: Resolver, pre: string, segs: Segments)
    ensures Substitute(r, true, Literalized(pre, segs)) == Prefixed(pre, Substitute(r, true, segs))
    decreases segs
  {
    match segs {
      case Tail(_) =>
      case Token(lit, body, rest) =>
        var sub := Substitute(r, true, rest);
        if IsSecret(TrimSpace(body)) {
          LiteralizedSubstitutes(r, "", rest);
          var v := r(TrimSpace(body));
          if v.Some? && sub.Some? {
            assert pre + lit + v.value + ("" + sub.value) == pre + (lit + v.value + sub.value);
          }
        } else {
          LiteralizedSubstitutes(r, pre + lit + OPEN + body + CLOSE, rest);
          if sub.Some? {
            LiteralToken(pre, lit, body, sub.value);
          }
        }
    }
  }

  lemma LiteralToken(pre: string, lit: string, body: string, after: string)
    ensures pre + lit + OPEN + body + CLOSE + after == pre + (lit + (OPEN + body + CLOSE) + after)
  {
  }

  lemma {:induction false} ResidueIsSecret(resolve: Resolver, pre: string, segs: Segments)
    requires WellFormed(segs)
    ensures SecretTokens(Residue(resolve, pre, segs))
    decreases segs
  {
    match segs {
      case Tail(_) =>
      case Token(lit, body, rest) =>
        var v := resolve(TrimSpace(body));
        var onward := if IsSecret(TrimSpace(body)) then "" else pre + lit + (if v.Some? then v.value else "");
        ResidueIsSecret(resolve, onward, rest);
    }
  }

  // A secret reference without a key, which never resolves.
  const KEYLESS := "secrets."

  ghost predicate NeedsKey(r: Resolver) {
    r(KEYLESS).None?
  }

  // Every secret with a key has this value; the rest is as before.
  function WithSecrets(resolve: Resolver, value: string): Resolver {
    expr => if expr == KEYLESS then None else if IsSecret(expr) then Some(value) else resolve(expr)
  }

  // No token is a secret reference without a key.
  predicate AllKeyed(segs: Segments) {
    match segs
    case Tail(_) => true
    case Token(_, body, rest) => TrimSpace(body) != KEYLESS && AllKeyed(rest)
  }

  lemma {:induction false} KeyedSecretsResolve(resolve: Resolver, value: string, segs: Segments)
    requires SecretTokens(segs)
    ensures Substitute(WithSecrets(resolve, value), true, segs).Some? <==> AllKeyed(segs)
  {
    match segs {
      case Tail(_) =>
      case Token(_, _, rest) => KeyedSecretsResolve(resolve, value, rest);
    }
  }

  lemma {:induction false} KeylessFails(r: Resolver, segs: Segments)
    requires NeedsKey(r) && SecretTokens(segs) && !AllKeyed(segs)
    ensures Substitute(r, true, segs).None?
  {
    match segs {
      case Tail(_) =>
      case Token(_, body, rest) =>
        if TrimSpace(body) != KEYLESS {
          KeylessFails(r, rest);
        }
    }
  }

  // Where the secrets stand can be read off two substitutions: two ways to cut one
  // text that agree under the values "0" and "1" are the same.
  lemma {:induction false} TwoValuesTellTokens(resolve: Resolver, a: Segments, b: Segments)
    requires SecretTokens(a) && SecretTokens(b) && AllKeyed(a) && AllKeyed(b) && Source(a) == Source(b)
    requires Substitute(WithSecrets(resolve, "0"), true, a) == Substitute(WithSecrets(resolve, "0"), true, b)
    requires Substitute(WithSecrets(resolve, "1"), true, a) == Substitute(WithSecrets(resolve, "1"), true, b)
    ensures a == b
  {
    if a.Token? && b.Token? {
      HeadsAgree(resolve, a, b);
      TwoValuesTellTokens(resolve, a.rest, b.rest);
    } else if a.Token? {
      TokenShows(resolve, a, b);
    } else if b.Token? {
      TokenShows(resolve, b, a);
    }
  }

  // What a substitution makes of a token and what follows it.
  lemma SubstitutedToken(resolve: Resolver, value: string, a: Segments)
    requires a.Token? && SecretTokens(a) && AllKeyed(a)
    ensures Substitute(WithSecrets(resolve, value), true, a.rest).Some?
    ensures Substitute(WithSecrets(resolve, value), true, a) ==
            Some(a.lit + value + Substitute(WithSecrets(resolve, value), true, a.rest).value)
  {
    KeyedSecretsResolve(resolve, value, a.rest);
  }

  lemma TokenShows(resolve: Resolver, a: Segments, b: Segments)
    requires a.Token? && b.Tail? && SecretTokens(a) && AllKeyed(a)
    ensures Substitute(WithSecrets(resolve, "0"), true, a) != Substitute(WithSecrets(resolve, "0"), true, b)
         || Substitute(WithSecrets(resolve, "1"), true, a) != Substitute(WithSecrets(resolve, "1"), true, b)
  {
    SubstitutedToken(resolve, "0", a);
    SubstitutedToken(resolve, "1", a);
    var x := Substitute(WithSecrets(resolve, "0"), true, a).value;
    var y := Substitute(WithSecrets(resolve, "1"), true, a).value;
    assert x[|a.lit|] == '0' && y[|a.lit|] == '1';
  }

  lemma HeadsAgree(resolve: Resolver, a: Segments, b: Segments)
    requires a.Token? && b.Token? && SecretTokens(a) && SecretTokens(b) && Source(a) == Source(b)
    requires AllKeyed(a) && AllKeyed(b)
    requires Substitute(WithSecrets(resolve, "0"), true, a) == Substitute(WithSecrets(resolve, "0"), true, b)
    requires Substitute(WithSecrets(resolve, "1"), true, a) == Substitute(WithSecrets(resolve, "1"), true, b)
    ensures a.lit == b.lit && a.body == b.body && Source(a.rest) == Source(b.rest)
    ensures Substitute(WithSecrets(resolve, "0"), true, a.rest) == Substitute(WithSecrets(resolve, "0"), true, b.rest)
    ensures Substitute(WithSecrets(resolve, "1"), true, a.rest) == Substitute(WithSecrets(resolve, "1"), true, b.rest)
  {
    SubstitutedToken(resolve, "0", a);
    SubstitutedToken(resolve, "1", a);
    SubstitutedToken(resolve, "0", b);
    SubstitutedToken(resolve, "1", b);
    var zero, one := WithSecrets(resolve, "0"), WithSecrets(resolve, "1");
    var a0, a1 := Substitute(zero, true, a.rest).value, Substitute(one, true, a.rest).value;
    var b0, b1 := Substitute(zero, true, b.rest).value, Substitute(one, true, b.rest).value;
    LiteralsAgree(a.lit, a0, a1, b.lit, b0, b1);
    BodiesAgree(a.lit, a.body, Source(a.rest), b.body, Source(b.rest));
  }

  lemma LiteralsAgree(a: string, a0: string, a1: string, b: string, b0: string, b1: string)
    requires a + "0" + a0 == b + "0" + b0 && a + "1" + a1 == b + "1" + b1
    ensures a == b && a0 == b0 && a1 == b1
  {
    var x, y := a + "0" + a0, a + "1" + a1;
    assert x[|a|] == '0' && y[|a|] == '1';
    assert x[|b|] == (b + "0" + b0)[|b|] == '0' && y[|b|] == (b + "1" + b1)[|b|] == '1';
    assert forall k :: 0 <= k < |a| ==> x[k] == a[k] == y[k];
    assert forall k :: 0 <= k < |b| ==> x[k] == b[k] == y[k];
    assert |a| == |b|;
    assert a == x[..|a|] == (b + "0" + b0)[..|b|] == b;
    assert a0 == x[|a| + 1..] == (b + "0" + b0)[|b| + 1..] == b0;
    assert a1 == y[|a| + 1..] == (b + "1" + b1)[|b| + 1..] == b1;
  }

  lemma BodiesAgree(lit: string, a: string, afterA: string, b: string, afterB: string)
    requires lit + OPEN + a + CLOSE + afterA == lit + OPEN + b + CLOSE + afterB
    requires IsFirst(a + CLOSE, CLOSE, |a|) && IsFirst(b + CLOSE, CLOSE, |b|)
    ensures a == b && afterA == afterB
  {
    var x, y := a + CLOSE + afterA, b + CLOSE + afterB;
    assert lit + OPEN + a + CLOSE + afterA == lit + OPEN + x;
    assert lit + OPEN + b + CLOSE + afterB == lit + OPEN + y;
    assert x == (lit + OPEN + x)[|lit + OPEN|..] == (lit + OPEN + y)[|lit + OPEN|..] == y;
    CloseAfterBody(a, afterA);
    CloseAfterBody(b, afterB);
    assert |a| == |b|;
    assert a == x[..|a|] == y[..|b|] == b;
    assert afterA == x[|a| + 2..] == y[|b| + 2..] == afterB;
  }

  ghost predicate SamePlain(r: Resolver, resolve: Resolver) {
    forall expr :: !IsSecret(expr) ==> r(expr) == resolve(expr)
  }

  lemma {:induction false} SamePlainSameResidue(r: Resolver, resolve: Resolver, pre: string, segs: Segments)
    requires SamePlain(r, resolve)
    ensures Residue(r, pre, segs) == Residue(resolve, pre, segs)
    ensures Substitute(r, false, segs) == Substitute(resolve, false, segs)
    ensures AllPlainResolve(r, segs) <==> AllPlainResolve(resolve, segs)
    decreases segs
  {
    match segs {
      case Tail(_) =>
      case Token(lit, body, rest) =>
        var v := resolve(TrimSpace(body));
        SamePlainSameResidue(r, resolve,
          if IsSecret(TrimSpace(body)) then "" else pre + lit + (if v.Some? then v.value else ""), rest);
    }
  }

  // Resolve is the substitution of every token of the input, errors included.
  ghost predicate OneSubstitution(r: Resolver, s: string) {
    var one := if Scan(s).Ok? then SubstituteAll(r, Scan(s).value) else None;
    var two := TwoPasses(r, s);
    (two.Ok? <==> one.Some?) && (two.Ok? ==> two.value == one.value)
  }

  // Scanning what the first pass produced finds the secrets of the input where
  // they were and no others, tokens that are not secrets being text to it. If the
  // input mentions a secret without a key, which always fails, the second scan must
  // fail or find such a one too. This asks nothing of the secrets' values.
  ghost predicate RescanFindsSecrets(resolve: Resolver, s: string) {
    Scan(s).Ok? && AllPlainResolve(resolve, Scan(s).value) ==>
      var first, residue := Pass(resolve, false, s), Residue(resolve, "", Scan(s).value);
      first.Ok? &&
      if AllKeyed(residue)
      then Scan(first.value).Ok? && Literalized("", Scan(first.value).value) == residue
      else Scan(first.value).Ok? ==> !AllKeyed(Literalized("", Scan(first.value).value))
  }

  lemma FirstPassIsResidue(resolve: Resolver, s: string)
    requires Scan(s).Ok? && AllPlainResolve(resolve, Scan(s).value)
    ensures Pass(resolve, false, s).Ok?
    ensures Pass(resolve, false, s).value == Source(Residue(resolve, "", Scan(s).value))
  {
    ResidueIsFirstPass(resolve, "", Scan(s).value);
    PassIsSubstitution(resolve, false, s);
  }

  // The second pass, on a text it can scan, substitutes the literalized cut.
  lemma SecondPassIsSubstitution(r: Resolver, first: string)
    ensures Pass(r, true, first).Ok? <==>
            Scan(first).Ok? && Substitute(r, true, Literalized("", Scan(first).value)).Some?
    ensures Pass(r, true, first).Ok? ==>
            Substitute(r, true, Literalized("", Scan(first).value)) == Some(Pass(r, true, first).value)
  {
    PassIsSubstitution(r, true, first);
    if Scan(first).Ok? {
      ScanIsSound(first);
      LiteralizedSubstitutes(r, "", Scan(first).value);
      assert forall x: string :: "" + x == x;
    }
  }

  lemma OneSubstitutionFails(r: Resolver, s: string)
    requires Scan(s).Err? || !AllPlainResolve(r, Scan(s).value)
    ensures OneSubstitution(r, s)
  {
    PassIsSubstitution(r, false, s);
    if Scan(s).Ok? {
      FirstPassNeedsPlain(r, Scan(s).value);
      OnePassNeedsPlain(r, Scan(s).value);
    }
  }

  lemma OneSubstitutionHolds(resolve: Resolver, s: string, r: Resolver)
    requires RescanFindsSecrets(resolve, s) && SamePlain(r, resolve) && NeedsKey(r)
    ensures OneSubstitution(r, s)
  {
    if Scan(s).Err? || !AllPlainResolve(r, Scan(s).value) {
      OneSubstitutionFails(r, s);
    } else {
      var segs := Scan(s).value;
      SamePlainSameResidue(r, resolve, "", segs);
      FirstPassIsResidue(r, s);
      FirstPassIsResidue(resolve, s);
      var first := Pass(r, false, s).value;
      SecondPassIsSubstitution(r, first);
      ResidueSubstitutes(r, "", segs);
      assert forall x: string :: "" + x == x;
      if !AllKeyed(Residue(r, "", segs)) {
        ScanIsSound(s);
        ResidueIsSecret(r, "", segs);
        KeylessFails(r, Residue(r, "", segs));
        if Scan(first).Ok? {
          ScanIsSound(first);
          LiteralizedSource("", Scan(first).value);
          KeylessFails(r, Literalized("", Scan(first).value));
        }
      }
    }
  }

  // For given values of the non-secret tokens: whatever the secrets are, the two
  // passes are one substitution if and only if rescanning finds the secrets.
  lemma TwoPassesAreOneIff(resolve: Resolver, s: string)
    ensures (forall r {:trigger OneSubstitution(r, s)} ::
               SamePlain(r, resolve) && NeedsKey(r) ==> OneSubstitution(r, s))
            <==> RescanFindsSecrets(resolve, s)
  {
    if RescanFindsSecrets(resolve, s) {
      forall r | SamePlain(r, resolve) && NeedsKey(r) ensures OneSubstitution(r, s) {
        OneSubstitutionHolds(resolve, s, r);
      }
    } else {
      var zero, one := WithSecrets(resolve, "0"), WithSecrets(resolve, "1");
      assert SamePlain(zero, resolve) && SamePlain(one, resolve) && NeedsKey(zero) && NeedsKey(one);
      if OneSubstitution(zero, s) && OneSubstitution(one, s) {
        OneSubstitutionTells(resolve, s);
      }
    }
  }

  lemma OneSubstitutionTells(resolve: Resolver, s: string)
    requires OneSubstitution(WithSecrets(resolve, "0"), s) && OneSubstitution(WithSecrets(resolve, "1"), s)
    ensures RescanFindsSecrets(resolve, s)
  {
    if Scan(s).Ok? && AllPlainResolve(resolve, Scan(s).value) {
      var segs := Scan(s).value;
      var residue := Residue(resolve, "", segs);
      ScanIsSound(s);
      ResidueIsSecret(resolve, "", segs);
      FirstPassIsResidue(resolve, s);
      var first := Pass(resolve, false, s).value;
      SecretTells(resolve, s, "0");
      SecretTells(resolve, s, "1");
      if Scan(first).Ok? {
        ScanIsSound(first);
        LiteralizedSource("", Scan(first).value);
        KeyedSecretsResolve(resolve, "0", Literalized("", Scan(first).value));
        if AllKeyed(residue) {
          TwoValuesTellTokens(resolve, Literalized("", Scan(first).value), residue);
        }
      }
    }
  }

  lemma SecretTells(resolve: Resolver, s: string, value: string)
    requires Scan(s).Ok? && AllPlainResolve(resolve, Scan(s).value) && OneSubstitution(WithSecrets(resolve, value), s)
    requires Pass(resolve, false, s).Ok?
    ensures var r, first := WithSecrets(resolve, value), Pass(resolve, false, s).value;
            var residue := Residue(resolve, "", Scan(s).value);
            && (Substitute(r, true, residue).Some? <==> AllKeyed(residue))
            && (AllKeyed(residue) ==> Scan(first).Ok?)
            && (Scan(first).Ok? ==>
                  Substitute(r, true, Literalized("", Scan(first).value)) == Substitute(r, true, residue))
  {
    var r, segs := WithSecrets(resolve, value), Scan(s).value;
    ScanIsSound(s);
    SamePlainSameResidue(r, resolve, "", segs);
    FirstPassIsResidue(r, s);
    FirstPassIsResidue(resolve, s);
    ResidueIsSecret(resolve, "", segs);
    KeyedSecretsResolve(resolve, value, Residue(resolve, "", segs));
    ResidueSubstitutes(r, "", segs);
    SecondPassIsSubstitution(r, Pass(r, false, s).value);
    assert forall x: string :: "" + x == x;
  }

  // Why a value must not be empty: between '$' and '{{' an empty input makes a
  // marker the text did not have, and the second pass rejects it.
  const GLUED := Token("$", "inputs.a", Tail("{{x"))

  lemma GluedIsWellFormed()
    ensures WellFormed(GLUED) && TrimSpace("inputs.a") == "inputs.a" && !IsSecret("inputs.a")
  {
    var t := "inputs.a" + CLOSE;
    assert t[8..10] == CLOSE;
    forall j | 0 <= j < 8 ensures !OccursAt(t, CLOSE, j) {
      assert t[j..j + 2][0] == t[j] != '}';
    }
    assert TrimLeft("inputs.a") == "inputs.a" && TrimRight("inputs.a") == "inputs.a";
    assert "secrets."[0] != "inputs.a"[0];
    assert "{{x"[0..3] == "{{x";
    forall j | 0 <= j <= 5 ensures !OccursAt("inputs.a", OPEN, j) {
      assert "inputs.a"[j..j + 3][0] == "inputs.a"[j] != '$';
    }
  }

  lemma UnclosedText(resolve: Resolver)
    ensures Pass(resolve, true, "${{x") == Err(Unclosed)
  {
    assert "${{x"[0..3] == OPEN && "${{x"[3..] == "x";
    FirstIsFound("${{x", OPEN, 0);
  }

  lemma EmptyValueGlues(resolve: Resolver)
    requires resolve("inputs.a") == Some("")
    ensures WellFormed(GLUED) && SubstituteAll(resolve, GLUED) == Some("${{x")
    ensures TwoPasses(resolve, Source(GLUED)) == Err(Unclosed)
  {
    GluedIsWellFormed();
    ScanIsComplete(GLUED);
    PassIsSubstitution(resolve, false, Source(GLUED));
    assert "$" + "" + "{{x" == "${{x";
    assert Pass(resolve, false, Source(GLUED)) == Ok("${{x");
    UnclosedText(resolve);
  }
}
