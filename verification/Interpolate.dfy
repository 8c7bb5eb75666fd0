/** Substitution of `{variable}` in configuration strings: the documented syntax as a
    grammar of tokens, a recursive reading of it, and the index loop that computes it.
    Strings stand for their bytes, so offsets are byte offsets. */
module Interpolate {
  import opened Wrappers
  import Text

  type Context = map<string, string>

  datatype Error =
    | UnknownVariable(name: string, offset: nat)
    | UnclosedBrace(offset: nat)
    | UnexpectedCloseBrace(offset: nat)
    | EmptyVariable(offset: nat)

  // ----- the syntax

  datatype Token =
    | Literal(c: char)
    | OpenBrace
    | CloseBrace
    | Variable(name: string)
    | Shell(body: string)

  /** A token as it is written. */
  function Written(token: Token): (s: string)
    ensures s != ""
  {
    match token
    case Literal(c) => [c]
    case OpenBrace => "{{"
    case CloseBrace => "}}"
    case Variable(name) => "{" + name + "}"
    case Shell(body) => "${" + body + "}"
  }

  /** What a token stands for; inserted values and shell variables are taken as they are. */
  function Meaning(token: Token, ctx: Context): string {
    match token
    case Literal(c) => [c]
    case OpenBrace => "{"
    case CloseBrace => "}"
    case Variable(name) => if name in ctx then ctx[name] else ""
    case Shell(body) => Written(token)
  }

  predicate WellFormed(token: Token, ctx: Context) {
    match token
    case Literal(c) => c != '{' && c != '}'
    case Variable(name) => name != "" && name[0] != '{' && '}' !in name && name in ctx
    case Shell(body) => '}' !in body
    case _ => true
  }

  predicate StartsWith(s: string, c: char) {
    s != "" && s[0] == c
  }

  /** A dollar sign stands for itself unless a brace follows. */
  predicate MayPrecede(token: Token, rest: string) {
    token == Literal('$') ==> !StartsWith(rest, '{')
  }

  function WrittenAll(tokens: seq<Token>): string {
    if tokens == [] then "" else Written(tokens[0]) + WrittenAll(tokens[1..])
  }

  function MeaningAll(tokens: seq<Token>, ctx: Context): string {
    if tokens == [] then "" else Meaning(tokens[0], ctx) + MeaningAll(tokens[1..], ctx)
  }

  predicate IsReading(tokens: seq<Token>, ctx: Context) {
    tokens == [] ||
    (WellFormed(tokens[0], ctx) && MayPrecede(tokens[0], WrittenAll(tokens[1..])) && IsReading(tokens[1..], ctx))
  }

  // ----- the recursive reading

  function Find(s: string, c: char): (r: Option<nat>)
    ensures match r case Some(k) => k < |s| && s[k] == c && c !in s[..k] case None => c !in s
  {
    if s == "" then None
    else if s[0] == c then Some(0)
    else
      match Find(s[1..], c)
      case Some(k) => assert s[..k + 1] == [s[0]] + s[1..][..k]; Some(k + 1)
      case None => assert s == [s[0]] + s[1..]; None
  }

  /** The token a non-empty template begins with. */
  function First(t: string, ctx: Context): (first: Result<Token, Error>)
    requires t != ""
    ensures first.Ok? ==> |Written(first.value)| <= |t|
  {
    if t[0] == '$' then
      if |t| > 1 && t[1] == '{' then
        match Find(t[2..], '}')
        case Some(k) => Ok(Shell(t[2..2 + k]))
        case None => Err(UnclosedBrace(0))
      else Ok(Literal('$'))
    else if t[0] == '{' && |t| > 1 && t[1] == '{' then Ok(OpenBrace)
    else if t[0] == '}' && |t| > 1 && t[1] == '}' then Ok(CloseBrace)
    else if t[0] == '}' then Err(UnexpectedCloseBrace(0))
    else if t[0] == '{' then
      match Find(t[1..], '}')
      case None => Err(UnclosedBrace(0))
      case Some(k) =>
        var name := t[1..1 + k];
        if name == "" then Err(EmptyVariable(0))
        else if name !in ctx then Err(UnknownVariable(name, 0))
        else Ok(Variable(name))
    else Ok(Literal(t[0]))
  }

  function Shift(e: Error, gap: nat): Error {
    e.(offset := e.offset + gap)
  }

  /** A result for the rest of a template, seen from `gap` bytes earlier, after `done`. */
  function After(done: string, gap: nat, r: Result<string, Error>): Result<string, Error> {
    match r
    case Ok(v) => Ok(done + v)
    case Err(e) => Err(Shift(e, gap))
  }

  function Interpolated(t: string, ctx: Context): Result<string, Error> {
    if t == "" then Ok("")
    else
      match First(t, ctx)
      case Err(e) => Err(e)
      case Ok(token) => After(Meaning(token, ctx), |Written(token)|, Interpolated(t[|Written(token)|..], ctx))
  }

  lemma Bracketed(t: string, n: nat, k: nat)
    requires n + k < |t|
    ensures t[n..][..k] == t[n..n + k] && t[..n + k + 1] == t[..n] + t[n..n + k] + [t[n + k]]
  {
  }

  lemma FirstShell(t: string, ctx: Context)
    requires |t| > 1 && t[0] == '$' && t[1] == '{' && '}' in t[2..]
    ensures First(t, ctx).Ok? && First(t, ctx).value.Shell?
    ensures var body := First(t, ctx).value.body;
            '}' !in body && |body| + 3 <= |t| && t[..|body| + 3] == Written(Shell(body))
  {
    hide Find;
    var k := Find(t[2..], '}').value;
    Bracketed(t, 2, k);
    assert t[..2] == "${";
  }

  lemma FirstVariable(t: string, ctx: Context)
    requires t != "" && t[0] == '{' && First(t, ctx).Ok? && First(t, ctx).value != OpenBrace
    ensures First(t, ctx).value.Variable? && WellFormed(First(t, ctx).value, ctx)
    ensures var name := First(t, ctx).value.name;
            |name| + 2 <= |t| && t[..|name| + 2] == Written(Variable(name))
  {
    hide Find;
    var k := Find(t[1..], '}').value;
    Bracketed(t, 1, k);
    assert t[..1] == "{";
  }

  /** The first token is written at the front, and it is well-formed. */
  lemma FirstIsFront(t: string, ctx: Context)
    requires t != "" && First(t, ctx).Ok?
    ensures var token := First(t, ctx).value;
            && |Written(token)| <= |t| && t[..|Written(token)|] == Written(token)
            && WellFormed(token, ctx) && MayPrecede(token, t[|Written(token)|..])
  {
    var token := First(t, ctx).value;
    if token.Shell? {
      FirstShell(t, ctx);
    } else if token.Variable? {
      FirstVariable(t, ctx);
    }
  }

  lemma Rejoin(t: string, n: nat)
    requires n <= |t|
    ensures t == t[..n] + t[n..]
  {
  }

  lemma {:induction false} FindFirst(s: string, c: char, rest: string)
    requires c !in s
    ensures Find(s + [c] + rest, c) == Some(|s|)
  {
    if s == "" {
      assert (s + [c] + rest)[0] == c;
    } else {
      assert s[0] in s && s == [s[0]] + s[1..];
      assert (s + [c] + rest)[1..] == s[1..] + [c] + rest;
      FindFirst(s[1..], c, rest);
    }
  }

  lemma FrontShell(body: string, rest: string, ctx: Context)
    requires '}' !in body
    ensures First(Written(Shell(body)) + rest, ctx) == Ok(Shell(body))
  {
    var t := Written(Shell(body)) + rest;
    assert t[2..] == body + ['}'] + rest;
    FindFirst(body, '}', rest);
    assert t[2..2 + |body|] == body;
  }

  lemma FrontVariable(name: string, rest: string, ctx: Context)
    requires WellFormed(Variable(name), ctx)
    ensures First(Written(Variable(name)) + rest, ctx) == Ok(Variable(name))
  {
    var t := Written(Variable(name)) + rest;
    assert t[1..] == name + ['}'] + rest && t[1] == name[0];
    FindFirst(name, '}', rest);
    assert t[1..1 + |name|] == name;
  }

  /** Conversely, a well-formed token at the front is the first token. */
  lemma FrontIsFirst(token: Token, rest: string, ctx: Context)
    requires WellFormed(token, ctx) && MayPrecede(token, rest)
    ensures First(Written(token) + rest, ctx) == Ok(token)
  {
    match token
    case Shell(body) => FrontShell(body, rest, ctx);
    case Variable(name) => FrontVariable(name, rest, ctx);
    case _ =>
      var t := Written(token) + rest;
      assert t[|Written(token)|..] == rest;
  }

  // ----- the reading is the grammar

  /** A sequence of well-formed tokens is read as just that. */
  lemma {:induction false} ReadingSucceeds(tokens: seq<Token>, ctx: Context)
    requires IsReading(tokens, ctx)
    ensures Interpolated(WrittenAll(tokens), ctx) == Ok(MeaningAll(tokens, ctx))
  {
    if tokens != [] {
      var token, rest := tokens[0], WrittenAll(tokens[1..]);
      FrontIsFirst(token, rest, ctx);
      ReadingSucceeds(tokens[1..], ctx);
      assert (Written(token) + rest)[|Written(token)|..] == rest;
    }
  }

  lemma {:induction false} SuccessIsReading(t: string, ctx: Context) returns (tokens: seq<Token>)
    requires Interpolated(t, ctx).Ok?
    ensures IsReading(tokens, ctx) && WrittenAll(tokens) == t && MeaningAll(tokens, ctx) == Interpolated(t, ctx).value
    decreases |t|
  {
    if t == "" {
      tokens := [];
    } else {
      FirstIsFront(t, ctx);
      var token := First(t, ctx).value;
      var others := SuccessIsReading(t[|Written(token)|..], ctx);
      Rejoin(t, |Written(token)|);
      tokens := [token] + others;
      assert tokens[1..] == others;
    }
  }

  /** Interpolation succeeds exactly on the templates the grammar writes, with their meaning. */
  lemma InterpolationIsGrammar(t: string, ctx: Context, v: string)
    ensures Interpolated(t, ctx) == Ok(v) <==>
            exists tokens :: IsReading(tokens, ctx) && WrittenAll(tokens) == t && MeaningAll(tokens, ctx) == v
  {
    if Interpolated(t, ctx) == Ok(v) {
      var tokens := SuccessIsReading(t, ctx);
    }
    if tokens :| IsReading(tokens, ctx) && WrittenAll(tokens) == t && MeaningAll(tokens, ctx) == v {
      ReadingSucceeds(tokens, ctx);
    }
  }

  lemma SameRest<T>(a: seq<T>, s: seq<T>, t: seq<T>)
    requires a + s == a + t
    ensures s == t
  {
    assert (a + s)[|a|..] == s && (a + t)[|a|..] == t;
  }

  lemma SameParts<T>(a: seq<T>, b: seq<T>)
    requires a != [] && b != [] && a[0] == b[0] && a[1..] == b[1..]
    ensures a == b
  {
    assert a == [a[0]] + a[1..] && b == [b[0]] + b[1..];
  }

  lemma WrittenIsSomething(tokens: seq<Token>)
    ensures WrittenAll(tokens) == "" <==> tokens == []
  {
  }

  /** No template can be read in two ways. */
  lemma {:induction false} ReadingIsUnique(a: seq<Token>, b: seq<Token>, ctx: Context)
    requires IsReading(a, ctx) && IsReading(b, ctx) && WrittenAll(a) == WrittenAll(b)
    ensures a == b
  {
    hide First, Written, WellFormed, MayPrecede;
    WrittenIsSomething(a);
    WrittenIsSomething(b);
    if a != [] {
      var s, t := WrittenAll(a[1..]), WrittenAll(b[1..]);
      FrontIsFirst(a[0], s, ctx);
      FrontIsFirst(b[0], t, ctx);
      SameRest(Written(a[0]), s, t);
      ReadingIsUnique(a[1..], b[1..], ctx);
      SameParts(a, b);
    }
  }

  // ----- concatenation

  lemma AfterTwice(a: string, i: nat, b: string, j: nat, r: Result<string, Error>)
    ensures After(a, i, After(b, j, r)) == After(a + b, i + j, r)
  {
    if r.Ok? {
      assert a + (b + r.value) == (a + b) + r.value;
    }
  }

  lemma FirstStaysFirst(t: string, u: string, ctx: Context)
    requires t != "" && First(t, ctx).Ok?
    requires |Written(First(t, ctx).value)| <= |t|
    requires MayPrecede(First(t, ctx).value, t[|Written(First(t, ctx).value)|..] + u)
    ensures First(t + u, ctx) == First(t, ctx)
  {
    FirstIsFront(t, ctx);
    var n := |Written(First(t, ctx).value)|;
    FrontIsFirst(First(t, ctx).value, t[n..] + u, ctx);
    assert t[..n] + (t[n..] + u) == t + u;
  }

  /** One token off the left part. */
  lemma SplitStep(t: string, u: string, ctx: Context, n: nat)
    requires t != "" && First(t, ctx).Ok? && n == |Written(First(t, ctx).value)|
    requires !(Text.EndsWith(t, '$') && StartsWith(u, '{'))
    ensures First(t + u, ctx) == First(t, ctx)
    ensures n <= |t| && (t + u)[n..] == t[n..] + u
    ensures !(Text.EndsWith(t[n..], '$') && StartsWith(u, '{'))
  {
    FirstIsFront(t, ctx);
    var token := First(t, ctx).value;
    if token == Literal('$') {
      assert t[..1] == "$";
    }
    FirstStaysFirst(t, u, ctx);
  }

  /** The first token and what is left of the template. */
  lemma TokenOff(t: string, ctx: Context, n: nat)
    requires t != "" && First(t, ctx).Ok? && n == |Written(First(t, ctx).value)| <= |t|
    ensures Interpolated(t, ctx) == After(Meaning(First(t, ctx).value, ctx), n, Interpolated(t[n..], ctx))
  {
  }

  lemma AfterSplits(
      m: string, n: nat, k: nat, left: Result<string, Error>, right: Result<string, Error>,
      whole: Result<string, Error>, rest: Result<string, Error>)
    requires left.Ok? && rest == After(left.value, k, right) && whole == After(m, n, rest)
    ensures whole == After(After(m, n, left).value, n + k, right)
  {
    AfterTwice(m, n, left.value, k, right);
  }

  lemma EmptyIsRead(ctx: Context)
    ensures Interpolated("", ctx) == Ok("")
  {
  }

  /** A template that is read starts with a token, and the rest is read. */
  lemma ReadStarts(t: string, ctx: Context)
    requires t != "" && Interpolated(t, ctx).Ok?
    ensures First(t, ctx).Ok? && 0 < |Written(First(t, ctx).value)| <= |t|
    ensures Interpolated(t[|Written(First(t, ctx).value)|..], ctx).Ok?
  {
  }

  /** Interpolation splits over concatenation where the left part succeeds, unless the seam
      makes a shell variable; errors on the right are reported that much further on. */
  lemma {:induction false} InterpolationSplits(t: string, u: string, ctx: Context)
    requires Interpolated(t, ctx).Ok? && !(Text.EndsWith(t, '$') && StartsWith(u, '{'))
    ensures Interpolated(t + u, ctx) == After(Interpolated(t, ctx).value, |t|, Interpolated(u, ctx))
    decreases |t|
  {
    hide Interpolated, First, Written, Meaning, StartsWith;
    if t == "" {
      assert t + u == u;
      EmptyIsRead(ctx);
      NothingBefore(Interpolated(u, ctx));
    } else {
      ReadStarts(t, ctx);
      var token := First(t, ctx).value;
      var n := |Written(token)|;
      SplitStep(t, u, ctx, n);
      TokenOff(t, ctx, n);
      TokenOff(t + u, ctx, n);
      InterpolationSplits(t[n..], u, ctx);
      AfterSplits(Meaning(token, ctx), n, |t[n..]|, Interpolated(t[n..], ctx), Interpolated(u, ctx),
                  Interpolated(t + u, ctx), Interpolated(t[n..] + u, ctx));
    }
  }

  lemma NothingBefore(r: Result<string, Error>)
    ensures After("", 0, r) == r
  {
    if r.Ok? {
      assert "" + r.value == r.value;
    }
  }

  /** At such a seam the dollar sign goes with the right part. */
  lemma SeamGoesRight(t: string, u: string, ctx: Context)
    requires Interpolated(t, ctx).Ok?
    ensures Interpolated(t + ("$" + u), ctx) == After(Interpolated(t, ctx).value, |t|, Interpolated("$" + u, ctx))
  {
    InterpolationSplits(t, "$" + u, ctx);
  }

  /** Without the proviso the law fails. */
  lemma SeamMatters()
    ensures var ctx := map["p" := "8080"];
            Interpolated("$", ctx) == Ok("$") && Interpolated("{p}", ctx) == Ok("8080")
              && Interpolated("${p}", ctx) == Ok("${p}")
  {
    var ctx := map["p" := "8080"];
    ReadingSucceeds([Literal('$')], ctx);
    assert WrittenAll([Literal('$')]) == "$" && MeaningAll([Literal('$')], ctx) == "$";
    assert WrittenAll([Variable("p")]) == "{p}" && MeaningAll([Variable("p")], ctx) == "8080";
    ReadingSucceeds([Variable("p")], ctx);
    assert WrittenAll([Shell("p")]) == "${p}" && MeaningAll([Shell("p")], ctx) == "${p}";
    ReadingSucceeds([Shell("p")], ctx);
  }

  // ----- where it fails

  /** What cannot be read at the front of `rest`, and with which error. */
  predicate Broken(rest: string, ctx: Context, e: Error) {
    e.offset == 0 &&
    match e
    case UnexpectedCloseBrace(_) => StartsWith(rest, '}') && !StartsWith(rest[1..], '}')
    case UnclosedBrace(_) =>
      || ("${" <= rest && '}' !in rest[2..])
      || (StartsWith(rest, '{') && !StartsWith(rest[1..], '{') && '}' !in rest[1..])
    case EmptyVariable(_) => "{}" <= rest
    case UnknownVariable(name, _) =>
      name != "" && name[0] != '{' && '}' !in name && name !in ctx && "{" + name + "}" <= rest
  }

  lemma FirstIsBroken(t: string, ctx: Context, e: Error)
    requires t != "" && First(t, ctx) == Err(e)
    ensures Broken(t, ctx, e)
  {
    hide Find;
    if t[0] == '{' && '}' in t[1..] {
      var k := Find(t[1..], '}').value;
      Bracketed(t, 1, k);
      assert t[..1] == "{";
      assert t[..k + 2] == "{" + t[1..1 + k] + "}";
      assert t[..k + 2] <= t;
    }
  }

  lemma BrokenIsFirst(t: string, ctx: Context, e: Error)
    requires Broken(t, ctx, e)
    ensures t != "" && First(t, ctx) == Err(e)
  {
    match e
    case UnknownVariable(name, _) => BadName(t, ctx, name);
    case EmptyVariable(_) =>
      assert "{" + "" + "}" == "{}";
      BadName(t, ctx, "");
    case _ =>
  }

  lemma BadName(t: string, ctx: Context, name: string)
    requires '}' !in name && (name == "" || (name[0] != '{' && name !in ctx)) && "{" + name + "}" <= t
    ensures First(t, ctx) == Err(if name == "" then EmptyVariable(0) else UnknownVariable(name, 0))
  {
    var n := |name| + 2;
    Rejoin(t, n);
    assert t[..n] == "{" + name + "}";
    assert t[1..] == name + ['}'] + t[n..] && (name != "" ==> t[1] == name[0]);
    FindFirst(name, '}', t[n..]);
    assert t[1..1 + |name|] == name;
  }

  /** The template is read as far as `tokens`, and the rest is broken. */
  ghost predicate BreaksAfter(t: string, ctx: Context, tokens: seq<Token>, rest: string, e: Error) {
    && t == WrittenAll(tokens) + rest && IsReading(tokens, ctx)
    && !(Text.EndsWith(WrittenAll(tokens), '$') && StartsWith(rest, '{'))
    && exists here :: Broken(rest, ctx, here) && e == Shift(here, |WrittenAll(tokens)|)
  }

  lemma {:induction false} FailureBreaks(t: string, ctx: Context) returns (tokens: seq<Token>, rest: string)
    requires Interpolated(t, ctx).Err?
    ensures BreaksAfter(t, ctx, tokens, rest, Interpolated(t, ctx).error)
    decreases |t|
  {
    hide First, Broken;
    if First(t, ctx).Err? {
      tokens, rest := [], t;
      FirstIsBroken(t, ctx, First(t, ctx).error);
      assert "" + t == t;
      ShiftNone(First(t, ctx).error);
    } else {
      FirstIsFront(t, ctx);
      var token := First(t, ctx).value;
      var n := |Written(token)|;
      var others;
      others, rest := FailureBreaks(t[n..], ctx);
      Rejoin(t, n);
      tokens := [token] + others;
      assert tokens[1..] == others;
      OneMoreToken(t, ctx, token, others, rest);
      ShiftMore(t, ctx, token, others, rest, Interpolated(t[n..], ctx).error);
    }
  }

  lemma ShiftNone(e: Error)
    ensures Shift(e, 0) == e
  {
  }

  lemma OneMoreToken(t: string, ctx: Context, token: Token, others: seq<Token>, rest: string)
    requires t == Written(token) + (WrittenAll(others) + rest) && WellFormed(token, ctx) && IsReading(others, ctx)
    requires MayPrecede(token, WrittenAll(others) + rest)
    requires !(Text.EndsWith(WrittenAll(others), '$') && StartsWith(rest, '{'))
    ensures IsReading([token] + others, ctx) && t == WrittenAll([token] + others) + rest
    ensures WrittenAll([token] + others) == Written(token) + WrittenAll(others)
    ensures !(Text.EndsWith(WrittenAll([token] + others), '$') && StartsWith(rest, '{'))
  {
    var tokens := [token] + others;
    assert tokens[1..] == others;
    var w, o := Written(token), WrittenAll(others);
    assert w + (o + rest) == (w + o) + rest;
    assert (w + o)[|w + o| - 1] == if o == "" then w[|w| - 1] else o[|o| - 1];
    if o == "" {
      assert o + rest == rest;
    } else {
      assert (o + rest)[0] == o[0];
    }
  }

  lemma ShiftMore(t: string, ctx: Context, token: Token, others: seq<Token>, rest: string, e: Error)
    requires exists here :: Broken(rest, ctx, here) && e == Shift(here, |WrittenAll(others)|)
    requires WrittenAll([token] + others) == Written(token) + WrittenAll(others)
    ensures exists here :: Broken(rest, ctx, here) &&
                           Shift(e, |Written(token)|) == Shift(here, |WrittenAll([token] + others)|)
  {
    hide Broken;
    var here :| Broken(rest, ctx, here) && e == Shift(here, |WrittenAll(others)|);
    assert Shift(e, |Written(token)|) == Shift(here, |WrittenAll([token] + others)|);
  }

  /** Interpolation fails exactly where a template is read up to a part that cannot be: a single closing brace, a
      brace or a shell variable that is not closed, an empty variable, an unknown one. The error says which, and
      its offset where that part begins. */
  lemma FailureIsWhereItBreaks(t: string, ctx: Context, e: Error)
    ensures Interpolated(t, ctx) == Err(e) <==> exists tokens, rest :: BreaksAfter(t, ctx, tokens, rest, e)
  {
    if Interpolated(t, ctx) == Err(e) {
      var tokens, rest := FailureBreaks(t, ctx);
    }
    if tokens, rest :| BreaksAfter(t, ctx, tokens, rest, e) {
      BreakFails(t, ctx, tokens, rest, e);
    }
  }

  lemma BreakFails(t: string, ctx: Context, tokens: seq<Token>, rest: string, e: Error)
    requires BreaksAfter(t, ctx, tokens, rest, e)
    ensures Interpolated(t, ctx) == Err(e)
  {
    hide First, Broken;
    var here :| Broken(rest, ctx, here) && e == Shift(here, |WrittenAll(tokens)|);
    ReadingSucceeds(tokens, ctx);
    InterpolationSplits(WrittenAll(tokens), rest, ctx);
    BrokenIsFirst(rest, ctx, here);
  }

  // ----- escaping

  /** A string with its braces doubled. */
  function Doubled(s: string): string {
    if s == "" then ""
    else (if s[0] == '{' then "{{" else if s[0] == '}' then "}}" else [s[0]]) + Doubled(s[1..])
  }

  predicate HasShell(s: string) {
    exists i | 0 <= i < |s| - 1 :: s[i] == '$' && s[i + 1] == '{'
  }

  lemma {:induction false} DoubledSplits(a: string, b: string)
    ensures Doubled(a + b) == Doubled(a) + Doubled(b)
  {
    if a == "" {
      assert a + b == b;
    } else {
      assert (a + b)[1..] == a[1..] + b;
      DoubledSplits(a[1..], b);
    }
  }

  lemma {:induction false} DoubledGrows(s: string)
    ensures |Doubled(s)| >= |s| && ('{' in s ==> |Doubled(s)| > |s|)
    ensures '}' in Doubled(s) <==> '}' in s
  {
    if s != "" {
      DoubledGrows(s[1..]);
      assert s == [s[0]] + s[1..];
    }
  }

  lemma DoubledStarts(s: string)
    ensures StartsWith(Doubled(s), '{') <==> StartsWith(s, '{')
  {
  }

  lemma ShellIn(s: string)
    requires s != ""
    ensures HasShell(s) <==> (s[0] == '$' && StartsWith(s[1..], '{')) || HasShell(s[1..])
  {
    if i :| 0 <= i < |s[1..]| - 1 && s[1..][i] == '$' && s[1..][i + 1] == '{' {
      assert s[i + 1] == '$' && s[i + 2] == '{';
    }
    if i :| 0 < i < |s| - 1 && s[i] == '$' && s[i + 1] == '{' {
      assert s[1..][i - 1] == '$' && s[1..][i] == '{';
    }
  }

  /** Doubling moves the first closing brace after an opening one further on. */
  lemma DoublingMovesClose(s: string, close: nat)
    requires close < |s| && '{' in s[..close] && '}' !in s[..close]
    ensures close < |Doubled(s)| && Doubled(s)[close] != '}'
  {
    var front := s[..close];
    Rejoin(s, close);
    DoubledSplits(front, s[close..]);
    DoubledGrows(front);
    assert Doubled(s)[close] == Doubled(front)[close];
    assert Doubled(front)[close] in Doubled(front);
  }

  lemma ShellIsKept(t: string, ctx: Context)
    requires |t| > 1 && t[0] == '$' && t[1] == '{' && Interpolated(t, ctx).Ok?
    ensures exists close ::
              && 2 <= close < |t| && t[close] == '}' && '}' !in t[..close]
              && t[..close + 1] <= Interpolated(t, ctx).value
  {
    FirstShell(t, ctx);
    var token := First(t, ctx).value;
    var close := 2 + |token.body|;
    assert t[..close + 1] == Written(token) && Written(token)[..close] == "${" + token.body;
    assert t[..close] == Written(token)[..close];
  }

  lemma DoubledShell(s: string)
    requires |s| >= 2 && s[0] == '$' && s[1] == '{'
    ensures |Doubled(s)| > 2 && Doubled(s)[0] == '$' && Doubled(s)[1] == '{'
  {
    assert s[1..][0] == '{';
  }

  /** A string that begins a shell variable does not survive doubling. */
  lemma ShellIsLost(s: string, ctx: Context)
    requires |s| >= 2 && s[0] == '$' && s[1] == '{'
    ensures Interpolated(Doubled(s), ctx) != Ok(s)
  {
    var t := Doubled(s);
    hide Interpolated, Doubled;
    DoubledShell(s);
    if Interpolated(t, ctx) == Ok(s) {
      ShellIsKept(t, ctx);
      var close :| 2 <= close < |t| && t[close] == '}' && '}' !in t[..close] && t[..close + 1] <= s;
      assert s[..close + 1] == t[..close + 1];
      assert s[..close] == t[..close] && s[close] == t[close];
      assert s[..close][1] == '{';
      DoublingMovesClose(s, close);
    }
  }

  /** Doubling the braces escapes a string, in every context, exactly if it holds no `${`. */
  lemma {:induction false} DoublingEscapesIff(s: string, ctx: Context)
    ensures Interpolated(Doubled(s), ctx) == Ok(s) <==> !HasShell(s)
  {
    if s != "" {
      ShellIn(s);
      if s[0] == '$' && StartsWith(s[1..], '{') {
        ShellIsLost(s, ctx);
      } else {
        var token := if s[0] == '{' then OpenBrace else if s[0] == '}' then CloseBrace else Literal(s[0]);
        DoubledStarts(s[1..]);
        FrontIsFirst(token, Doubled(s[1..]), ctx);
        DoublingEscapesIff(s[1..], ctx);
        assert Doubled(s) == Written(token) + Doubled(s[1..]);
        assert Doubled(s)[|Written(token)|..] == Doubled(s[1..]);
        assert s == [s[0]] + s[1..];
        var r := Interpolated(Doubled(s[1..]), ctx);
        assert r.Ok? ==> ([s[0]] + r.value)[1..] == r.value;
      }
    }
  }

  // ----- the loop

  /** What has been put out so far stands for the template up to index `i`. */
  ghost predicate Reads(t: string, ctx: Context, out: string, i: nat) {
    i <= |t| && Interpolated(t, ctx) == After(out, i, Interpolated(t[i..], ctx))
  }

  lemma Slices(t: string, i: nat, n: nat)
    requires i + n <= |t|
    ensures t[i..][n..] == t[i + n..] && t[i..][..n] == t[i..i + n]
  {
  }

  lemma CopyOne(t: string, start: nat, i: nat, before: string)
    requires start <= i < |t|
    ensures before + t[start..i] + [t[i]] == before + t[start..i + 1]
  {
  }

  /** One token further. */
  lemma Advance(t: string, i: nat, out: string, ctx: Context, m: string, n: nat)
    requires i + n <= |t| && Reads(t, ctx, out, i)
    requires Interpolated(t[i..], ctx) == After(m, n, Interpolated(t[i + n..], ctx))
    ensures Reads(t, ctx, out + m, i + n)
  {
    AfterTwice(out, i, m, n, Interpolated(t[i + n..], ctx));
  }

  /** The first `c` of `t` at or after `start` is at `stop - 1`. */
  predicate Closes(t: string, start: nat, stop: nat, c: char) {
    start < stop <= |t| && t[stop - 1] == c && forall j :: start <= j < stop - 1 ==> t[j] != c
  }

  lemma {:induction false} FindIs(u: string, c: char, k: nat)
    requires k < |u| && u[k] == c && forall j :: 0 <= j < k ==> u[j] != c
    ensures Find(u, c) == Some(k)
  {
    if k > 0 {
      FindIs(u[1..], c, k - 1);
    }
  }

  lemma ReadShell(u: string, ctx: Context, n: nat)
    requires |u| > 1 && u[0] == '$' && u[1] == '{' && Closes(u, 2, n, '}')
    ensures Interpolated(u, ctx) == After(u[..n], n, Interpolated(u[n..], ctx))
  {
    FindIs(u[2..], '}', n - 3);
    FirstShell(u, ctx);
    TokenOff(u, ctx, n);
  }

  lemma ReadVariable(u: string, ctx: Context, n: nat)
    requires u != "" && u[0] == '{' && !(|u| > 1 && u[1] == '{')
    requires Closes(u, 1, n, '}') && u[1..n - 1] != "" && u[1..n - 1] in ctx
    ensures Interpolated(u, ctx) == After(ctx[u[1..n - 1]], n, Interpolated(u[n..], ctx))
  {
    FindIs(u[1..], '}', n - 2);
    TokenOff(u, ctx, n);
  }

  lemma ReadDouble(u: string, ctx: Context)
    requires |u| > 1 && u[0] == u[1] && (u[0] == '{' || u[0] == '}')
    ensures Interpolated(u, ctx) == After([u[0]], 2, Interpolated(u[2..], ctx))
  {
    TokenOff(u, ctx, 2);
    assert Meaning(First(u, ctx).value, ctx) == [u[0]];
  }

  lemma ReadPlain(u: string, ctx: Context)
    requires u != "" && u[0] != '{' && u[0] != '}' && !(u[0] == '$' && |u| > 1 && u[1] == '{')
    ensures Interpolated(u, ctx) == After([u[0]], 1, Interpolated(u[1..], ctx))
  {
    TokenOff(u, ctx, 1);
  }

  lemma ClosesInRest(t: string, i: nat, start: nat, stop: nat, c: char)
    requires i <= start && Closes(t, start, stop, c)
    ensures Closes(t[i..], start - i, stop - i, c) && t[i..][start - i..stop - i - 1] == t[start..stop - 1]
  {
  }

  lemma TakeShell(t: string, i: nat, out: string, ctx: Context, stop: nat)
    requires i + 1 < |t| && Reads(t, ctx, out, i) && t[i] == '$' && t[i + 1] == '{' && Closes(t, i + 2, stop, '}')
    ensures Reads(t, ctx, out + t[i..stop], stop)
  {
    hide Interpolated, First, Find;
    ClosesInRest(t, i, i + 2, stop, '}');
    ReadShell(t[i..], ctx, stop - i);
    Slices(t, i, stop - i);
    Advance(t, i, out, ctx, t[i..stop], stop - i);
  }

  lemma TakeVariable(t: string, i: nat, out: string, ctx: Context, stop: nat)
    requires i < |t| && Reads(t, ctx, out, i) && t[i] == '{' && !(i + 1 < |t| && t[i + 1] == '{')
    requires Closes(t, i + 1, stop, '}') && t[i + 1..stop - 1] != "" && t[i + 1..stop - 1] in ctx
    ensures Reads(t, ctx, out + ctx[t[i + 1..stop - 1]], stop)
  {
    hide Interpolated, First, Find;
    ClosesInRest(t, i, i + 1, stop, '}');
    ReadVariable(t[i..], ctx, stop - i);
    Slices(t, i, stop - i);
    Advance(t, i, out, ctx, ctx[t[i + 1..stop - 1]], stop - i);
  }

  lemma TakeDouble(t: string, i: nat, out: string, ctx: Context)
    requires i + 1 < |t| && Reads(t, ctx, out, i) && t[i] == t[i + 1] && (t[i] == '{' || t[i] == '}')
    ensures Reads(t, ctx, out + [t[i]], i + 2)
  {
    hide Interpolated, First, Find;
    ReadDouble(t[i..], ctx);
    Slices(t, i, 2);
    Advance(t, i, out, ctx, [t[i]], 2);
  }

  lemma TakePlain(t: string, i: nat, out: string, ctx: Context)
    requires i < |t| && Reads(t, ctx, out, i) && t[i] != '{' && t[i] != '}'
    requires !(t[i] == '$' && i + 1 < |t| && t[i + 1] == '{')
    ensures Reads(t, ctx, out + [t[i]], i + 1)
  {
    hide Interpolated, First, Find;
    ReadPlain(t[i..], ctx);
    Slices(t, i, 1);
    Advance(t, i, out, ctx, [t[i]], 1);
  }

  lemma ErrorHere(t: string, i: nat, out: string, ctx: Context, e: Error)
    requires i < |t| && Reads(t, ctx, out, i) && First(t[i..], ctx) == Err(e)
    ensures Interpolated(t, ctx) == Err(Shift(e, i))
  {
  }

  /** What goes wrong at an opening brace, or at `${`. */
  lemma UnclosedHere(t: string, i: nat, start: nat, ctx: Context)
    requires i < start <= |t| && '}' !in t[start..]
    requires (t[i] == '$' && start == i + 2 && t[i + 1] == '{')
             || (t[i] == '{' && start == i + 1 && !(start < |t| && t[start] == '{'))
    ensures First(t[i..], ctx) == Err(UnclosedBrace(0))
  {
    assert t[i..][start - i..] == t[start..];
  }

  lemma BadNameHere(t: string, i: nat, stop: nat, ctx: Context)
    requires i < |t| && t[i] == '{' && !(i + 1 < |t| && t[i + 1] == '{') && Closes(t, i + 1, stop, '}')
    ensures var name := t[i + 1..stop - 1];
            && (name == "" ==> First(t[i..], ctx) == Err(EmptyVariable(0)))
            && (name != "" && name !in ctx ==> First(t[i..], ctx) == Err(UnknownVariable(name, 0)))
  {
    var u := t[i..];
    ClosesInRest(t, i, i + 1, stop, '}');
    FindIs(u[1..], '}', stop - i - 2);
    assert u[1..1 + (stop - i - 2)] == t[i + 1..stop - 1];
  }

  lemma NothingLeft(t: string, ctx: Context, out: string, i: nat)
    requires Reads(t, ctx, out, i) && i >= |t|
    ensures Interpolated(t, ctx) == Ok(out)
  {
    assert t[i..] == "" && out + "" == out;
  }

  /** The index behind the first `c` at or after `start`. */
  method FindFrom(t: string, start: nat, c: char) returns (stop: Option<nat>)
    requires start <= |t|
    ensures match stop case Some(n) => Closes(t, start, n, c) case None => c !in t[start..]
  {
    for k := start to |t|
      invariant forall j :: start <= j < k ==> t[j] != c
    {
      if t[k] == c {
        return Some(k + 1);
      }
    }
    return None;
  }

  /** The loop puts out exactly what the recursive reading says, or its first error. */
  method Interpolate(t: string, ctx: Context) returns (result: Result<string, Error>)
    ensures result == Interpolated(t, ctx)
  {
    hide Interpolated;
    var out, i := "", 0;
    NothingBefore(Interpolated(t, ctx));
    assert t[0..] == t;
    while i < |t|
      invariant Reads(t, ctx, out, i)
    {
      if t[i] == '$' {
        if i + 1 < |t| && t[i + 1] == '{' {
          var end := FindFrom(t, i + 2, '}');
          if end == None {
            UnclosedHere(t, i, i + 2, ctx);
            ErrorHere(t, i, out, ctx, UnclosedBrace(0));
            return Err(UnclosedBrace(i));
          }
          TakeShell(t, i, out, ctx, end.value);
          out, i := out + t[i..end.value], end.value;
        } else {
          TakePlain(t, i, out, ctx);
          out, i := out + [t[i]], i + 1;
        }
      } else if (t[i] == '{' || t[i] == '}') && i + 1 < |t| && t[i + 1] == t[i] {
        TakeDouble(t, i, out, ctx);
        out, i := out + [t[i]], i + 2;
      } else if t[i] == '}' {
        ErrorHere(t, i, out, ctx, UnexpectedCloseBrace(0));
        return Err(UnexpectedCloseBrace(i));
      } else if t[i] == '{' {
        var end := FindFrom(t, i + 1, '}');
        if end == None {
          UnclosedHere(t, i, i + 1, ctx);
          ErrorHere(t, i, out, ctx, UnclosedBrace(0));
          return Err(UnclosedBrace(i));
        }
        var name := t[i + 1..end.value - 1];
        BadNameHere(t, i, end.value, ctx);
        if name == "" {
          ErrorHere(t, i, out, ctx, EmptyVariable(0));
          return Err(EmptyVariable(i));
        }
        if name !in ctx {
          ErrorHere(t, i, out, ctx, UnknownVariable(name, 0));
          return Err(UnknownVariable(name, i));
        }
        TakeVariable(t, i, out, ctx, end.value);
        out, i := out + ctx[name], end.value;
      } else {
        out, i := CopyChunk(t, ctx, out, i);
      }
    }
    NothingLeft(t, ctx, out, i);
    return Ok(out);
  }

  /** Copies up to the next brace or dollar sign. */
  method CopyChunk(t: string, ctx: Context, before: string, start: nat) returns (out: string, i: nat)
    requires start < |t| && Reads(t, ctx, before, start) && t[start] != '{' && t[start] != '}' && t[start] != '$'
    ensures start < i && Reads(t, ctx, out, i)
  {
    hide Interpolated, First, Find;
    i := start;
    assert before + t[start..i] == before;
    while i < |t| && t[i] != '{' && t[i] != '}' && t[i] != '$'
      invariant start <= i <= |t| && Reads(t, ctx, before + t[start..i], i)
      invariant i == start ==> i < |t| && t[i] != '{' && t[i] != '}' && t[i] != '$'
      decreases |t| - i
    {
      TakePlain(t, i, before + t[start..i], ctx);
      CopyOne(t, start, i, before);
      i := i + 1;
    }
    out := before + t[start..i];
  }
}
