/**
 The structural gate of the app builder (app_builder/policy.py): a one-pass check of quotes and
 brackets, proved equal to a grammar of neutral characters, quoted strings and nested groups.
 */
module Delimiters {
  import opened Options

  // ---------------------------------------------------------------- the grammar

  datatype Forest = Empty | Then(front: Forest, last: Tree)

  datatype Tree = Neutral(c: char) | Quoted(quote: char, body: Body) | Group(open: char, inner: Forest)

  datatype Body = NoText | More(front: Body, last: Unit)

  datatype Unit = Plain(c: char) | Escaped(c: char)

  predicate IsQuote(c: char) { c == '"' || c == '\'' || c == '`' }

  predicate IsOpen(c: char) { c == '(' || c == '[' || c == '{' }

  predicate IsClose(c: char) { c == ')' || c == ']' || c == '}' }

  function Opener(c: char): char {
    if c == ')' then '(' else if c == ']' then '[' else '{'
  }

  function Closer(c: char): char {
    if c == '(' then ')' else if c == '[' then ']' else '}'
  }

  predicate Proper(f: Forest) { f.Then? ==> Proper(f.front) && ProperTree(f.last) }

  predicate ProperTree(t: Tree) {
    match t
    case Neutral(c) => !IsQuote(c) && !IsOpen(c) && !IsClose(c)
    case Quoted(quote, body) => IsQuote(quote) && ProperBody(quote, body)
    case Group(open, inner) => IsOpen(open) && Proper(inner)
  }

  predicate ProperBody(quote: char, b: Body) {
    b.More? ==> ProperBody(quote, b.front) && (b.last.Plain? ==> b.last.c != quote && b.last.c != '\\')
  }

  function Render(f: Forest): string {
    if f.Empty? then "" else Render(f.front) + RenderTree(f.last)
  }

  function RenderTree(t: Tree): string
  {
    match t
    case Neutral(c) => [c]
    case Quoted(quote, body) => [quote] + RenderBody(body) + [quote]
    case Group(open, inner) => [open] + Render(inner) + [Closer(open)]
  }

  function RenderBody(b: Body): string {
    if b.NoText? then "" else RenderBody(b.front) + (if b.last.Plain? then [b.last.c] else ['\\', b.last.c])
  }

  ghost predicate Derives(text: string) {
    exists f: Forest :: Proper(f) && Render(f) == text
  }

  // ---------------------------------------------------------------- the checker's state

  datatype State = State(stack: seq<char>, quote: Option<char>, escaped: bool)

  /** One character; none when it closes a bracket that is not the innermost open one. */
  function Step(s: State, c: char): Option<State> {
    if s.quote.Some? then
      if s.escaped then Some(s.(escaped := false))
      else if c == '\\' then Some(s.(escaped := true))
      else if c == s.quote.value then Some(s.(quote := None))
      else Some(s)
    else if IsQuote(c) then Some(s.(quote := Some(c)))
    else if IsOpen(c) then Some(s.(stack := s.stack + [c]))
    else if IsClose(c) then
      if s.stack == [] || s.stack[|s.stack| - 1] != Opener(c) then None
      else Some(s.(stack := s.stack[..|s.stack| - 1]))
    else Some(s)
  }

  const Start := State([], None, false)

  function Scan(text: string): Option<State> {
    if text == [] then Some(Start)
    else
      var s := Scan(text[..|text| - 1]);
      if s.None? then None else Step(s.value, text[|text| - 1])
  }

  // ---------------------------------------------------------------- a parser for the grammar

  datatype Frame = Frame(before: Forest, open: char)

  datatype Literal = Literal(quote: char, body: Body, escaped: bool)

  /** What a prefix has been parsed into: finished text around each group still open, and the
      string still open, if any. */
  datatype Partial = Partial(frames: seq<Frame>, current: Forest, literal: Option<Literal>)

  ghost predicate ProperPartial(p: Partial) {
    && (forall i | 0 <= i < |p.frames| :: Proper(p.frames[i].before) && IsOpen(p.frames[i].open))
    && Proper(p.current)
    && (p.literal.Some? ==> IsQuote(p.literal.value.quote) && ProperBody(p.literal.value.quote, p.literal.value.body))
  }

  function RenderFrames(frames: seq<Frame>): string {
    if frames == [] then ""
    else
      var last := frames[|frames| - 1];
      RenderFrames(frames[..|frames| - 1]) + Render(last.before) + [last.open]
  }

  function RenderLiteral(o: Option<Literal>): string {
    if o.None? then ""
    else [o.value.quote] + RenderBody(o.value.body) + (if o.value.escaped then ['\\'] else "")
  }

  function RenderPartial(p: Partial): string {
    RenderFrames(p.frames) + Render(p.current) + RenderLiteral(p.literal)
  }

  function Parse(p: Partial, c: char): Option<Partial> {
    if p.literal.Some? then Some(ParseQuoted(p, p.literal.value, c))
    else if IsQuote(c) then Some(p.(literal := Some(Literal(c, NoText, false))))
    else if IsOpen(c) then Some(Partial(p.frames + [Frame(p.current, c)], Empty, None))
    else if IsClose(c) then
      if p.frames == [] || p.frames[|p.frames| - 1].open != Opener(c) then None
      else
        var last := p.frames[|p.frames| - 1];
        Some(Partial(p.frames[..|p.frames| - 1], Then(last.before, Group(last.open, p.current)), None))
    else Some(p.(current := Then(p.current, Neutral(c))))
  }

  function ParseQuoted(p: Partial, o: Literal, c: char): Partial {
    if o.escaped then p.(literal := Some(Literal(o.quote, More(o.body, Escaped(c)), false)))
    else if c == '\\' then p.(literal := Some(o.(escaped := true)))
    else if c == o.quote then Partial(p.frames, Then(p.current, Quoted(o.quote, o.body)), None)
    else p.(literal := Some(o.(body := More(o.body, Plain(c)))))
  }

  function ParseAll(p: Partial, text: string): Option<Partial> {
    if text == [] then Some(p)
    else
      var q := ParseAll(p, text[..|text| - 1]);
      if q.None? then None else Parse(q.value, text[|text| - 1])
  }

  const Nothing := Partial([], Empty, None)

  // ---------------------------------------------------------------- soundness

  function StateOf(p: Partial): State {
    State(seq(|p.frames|, i requires 0 <= i < |p.frames| => p.frames[i].open),
          if p.literal.Some? then Some(p.literal.value.quote) else None,
          p.literal.Some? && p.literal.value.escaped)
  }

  /** The checker's state is all of the parse that it needs. */
  lemma ScannerFollowsParser(p: Partial, c: char)
    ensures Parse(p, c).None? <==> Step(StateOf(p), c).None?
    ensures Parse(p, c).Some? ==> Step(StateOf(p), c) == Some(StateOf(Parse(p, c).value))
  {
    if Parse(p, c).Some? {
      var q := Parse(p, c).value;
      assert StateOf(q).stack == Step(StateOf(p), c).value.stack;
    }
  }

  lemma {:induction false} ScanIsTheParse(text: string)
    ensures ParseAll(Nothing, text).None? <==> Scan(text).None?
    ensures ParseAll(Nothing, text).Some? ==> Scan(text) == Some(StateOf(ParseAll(Nothing, text).value))
  {
    if text == [] {
      assert StateOf(Nothing) == Start;
    } else {
      ScanIsTheParse(text[..|text| - 1]);
      var p := ParseAll(Nothing, text[..|text| - 1]);
      if p.Some? { ScannerFollowsParser(p.value, text[|text| - 1]); }
    }
  }

  lemma RenderThen(f: Forest, t: Tree)
    ensures Render(Then(f, t)) == Render(f) + RenderTree(t)
  {
  }

  /** The parser loses no character and builds only proper trees. */
  lemma ParseRenders(p: Partial, c: char)
    requires ProperPartial(p) && Parse(p, c).Some?
    ensures ProperPartial(Parse(p, c).value) && RenderPartial(Parse(p, c).value) == RenderPartial(p) + [c]
  {
    if p.literal.Some? {
      QuotedRenders(p, c);
    } else if !IsQuote(c) {
      if IsOpen(c) {
      } else if IsClose(c) {
        CloseRenders(p, c);
      } else {
        NeutralRenders(p, c);
      }
    }
  }

  lemma NeutralRenders(p: Partial, c: char)
    requires ProperPartial(p) && p.literal.None? && ProperTree(Neutral(c))
    ensures var q := p.(current := Then(p.current, Neutral(c)));
      ProperPartial(q) && RenderPartial(q) == RenderPartial(p) + [c]
  {
    var outer, inner := RenderFrames(p.frames), Render(p.current);
    RenderThen(p.current, Neutral(c));
    assert outer + (inner + [c]) + "" == outer + inner + "" + [c];
  }

  lemma QuotedRenders(p: Partial, c: char)
    requires ProperPartial(p) && p.literal.Some?
    ensures var q := ParseQuoted(p, p.literal.value, c);
      ProperPartial(q) && RenderPartial(q) == RenderPartial(p) + [c]
  {
    var o := p.literal.value;
    var q := ParseQuoted(p, o, c);
    var outer, current := RenderFrames(p.frames), Render(p.current);
    if !o.escaped && c != '\\' && c == o.quote {
      RenderThen(p.current, Quoted(c, o.body));
      assert RenderPartial(q) == outer + (current + ([c] + RenderBody(o.body) + [c])) + "";
    } else {
      assert RenderPartial(q) == outer + current + (RenderLiteral(p.literal) + [c]);
    }
  }

  lemma CloseRenders(p: Partial, c: char)
    requires ProperPartial(p) && p.literal.None? && IsClose(c) && Parse(p, c).Some?
    ensures ProperPartial(Parse(p, c).value) && RenderPartial(Parse(p, c).value) == RenderPartial(p) + [c]
  {
    var last := p.frames[|p.frames| - 1];
    var outer, before, inner := RenderFrames(p.frames[..|p.frames| - 1]), Render(last.before), Render(p.current);
    assert Closer(last.open) == c;
    RenderThen(last.before, Group(last.open, p.current));
    calc {
      RenderPartial(Parse(p, c).value);
      outer + (before + ([last.open] + inner + [c])) + "";
      outer + before + [last.open] + inner + "" + [c];
      RenderPartial(p) + [c];
    }
  }

  lemma {:induction false} ParseAllRenders(text: string)
    requires ParseAll(Nothing, text).Some?
    ensures var p := ParseAll(Nothing, text).value; ProperPartial(p) && RenderPartial(p) == text
  {
    if text != [] {
      ParseAllRenders(text[..|text| - 1]);
      ParseRenders(ParseAll(Nothing, text[..|text| - 1]).value, text[|text| - 1]);
      assert text == text[..|text| - 1] + [text[|text| - 1]];
    }
  }

  // ---------------------------------------------------------------- completeness

  function Joined(f: Forest, g: Forest): Forest {
    if g.Empty? then f else Then(Joined(f, g.front), g.last)
  }

  lemma {:induction false} ParseSplits(p: Partial, a: string, b: string)
    ensures ParseAll(p, a + b) == (if ParseAll(p, a).None? then None else ParseAll(ParseAll(p, a).value, b))
  {
    if b == [] {
      assert a + b == a;
    } else {
      assert (a + b)[..|a + b| - 1] == a + b[..|b| - 1];
      ParseSplits(p, a, b[..|b| - 1]);
    }
  }

  lemma ParseOne(p: Partial, c: char)
    ensures ParseAll(p, [c]) == Parse(p, c)
  {
    assert [c][..0] == [];
  }

  /** Parsing the text of a proper forest appends exactly that forest. */
  lemma {:induction false} ParsesForest(p: Partial, f: Forest)
    requires p.literal.None? && Proper(f)
    ensures ParseAll(p, Render(f)) == Some(p.(current := Joined(p.current, f)))
    decreases f
  {
    if f.Then? {
      ParsesForest(p, f.front);
      ParseSplits(p, Render(f.front), RenderTree(f.last));
      ParsesTree(p.(current := Joined(p.current, f.front)), f.last);
    }
  }

  lemma {:induction false} ParsesTree(p: Partial, t: Tree)
    requires p.literal.None? && ProperTree(t)
    ensures ParseAll(p, RenderTree(t)) == Some(p.(current := Then(p.current, t)))
    decreases t
  {
    match t
    case Neutral(c) => ParseOne(p, c);
    case Quoted(quote, body) =>
      ParseOne(p, quote);
      ParsesBody(p, quote, body);
      ParseSplits(p, [quote], RenderBody(body));
      var q := p.(literal := Some(Literal(quote, body, false)));
      ParseSplits(p, [quote] + RenderBody(body), [quote]);
      ParseOne(q, quote);
    case Group(open, inner) =>
      var q := Partial(p.frames + [Frame(p.current, open)], Empty, None);
      ParseOne(p, open);
      ParsesForest(q, inner);
      JoinedToNothing(inner);
      ParseSplits(p, [open], Render(inner));
      ParseSplits(p, [open] + Render(inner), [Closer(open)]);
      ParseOne(q.(current := inner), Closer(open));
      assert q.frames[..|q.frames| - 1] == p.frames;
  }

  lemma {:induction false} ParsesBody(p: Partial, quote: char, b: Body)
    requires p.literal.None? && IsQuote(quote) && ProperBody(quote, b)
    ensures ParseAll(p.(literal := Some(Literal(quote, NoText, false))), RenderBody(b)) ==
      Some(p.(literal := Some(Literal(quote, b, false))))
    decreases b
  {
    if b.More? {
      var q, r :=
        p.(literal := Some(Literal(quote, NoText, false))), p.(literal := Some(Literal(quote, b.front, false)));
      ParsesBody(p, quote, b.front);
      if b.last.Plain? {
        ParseSplits(q, RenderBody(b.front), [b.last.c]);
        ParseOne(r, b.last.c);
      } else {
        ParseSplits(q, RenderBody(b.front), ['\\', b.last.c]);
        assert ['\\', b.last.c] == ['\\'] + [b.last.c];
        ParseSplits(r, ['\\'], [b.last.c]);
        ParseOne(r, '\\');
        ParseOne(p.(literal := Some(Literal(quote, b.front, true))), b.last.c);
      }
    }
  }

  lemma {:induction false} JoinedToNothing(f: Forest)
    ensures Joined(Empty, f) == f
    decreases f
  {
    if f.Then? { JoinedToNothing(f.front); }
  }

  // ---------------------------------------------------------------- the main results

  predicate Balanced(text: string) {
    var s := Scan(text); s.Some? && s.value.quote.None? && s.value.stack == []
  }

  /** The checker accepts exactly the texts of the grammar. */
  lemma BalancedIsDerivable(text: string)
    ensures Balanced(text) <==> Derives(text)
  {
    ScanIsTheParse(text);
    if Balanced(text) {
      ParseAllRenders(text);
      var p := ParseAll(Nothing, text).value;
      assert |StateOf(p).stack| == |p.frames|;
      assert RenderPartial(p) == Render(p.current);
    }
    if f: Forest :| Proper(f) && Render(f) == text {
      ParsesForest(Nothing, f);
      JoinedToNothing(f);
      assert StateOf(Partial([], f, None)) == Start;
    }
  }

  /** The grammar is unambiguous: a text has at most one derivation. */
  lemma DerivationIsUnique(f: Forest, g: Forest)
    requires Proper(f) && Proper(g) && Render(f) == Render(g)
    ensures f == g
  {
    ParsesForest(Nothing, f);
    ParsesForest(Nothing, g);
    JoinedToNothing(f);
    JoinedToNothing(g);
  }

  // ---------------------------------------------------------------- which complaint

  /** Text that closes everything a state has open. */
  function Completion(s: State): string {
    (if s.escaped then "x" else "") + (if s.quote.Some? then [s.quote.value] else "") + Closers(s.stack)
  }

  function Closers(stack: seq<char>): string {
    if stack == [] then "" else [Closer(stack[|stack| - 1])] + Closers(stack[..|stack| - 1])
  }

  function ScanFrom(s: State, text: string): Option<State>
    decreases |text|
  {
    if text == [] then Some(s)
    else
      var next := Step(s, text[0]);
      if next.None? then None else ScanFrom(next.value, text[1..])
  }

  lemma {:induction false} ScanContinues(text: string, more: string)
    ensures Scan(text + more) == (if Scan(text).None? then None else ScanFrom(Scan(text).value, more))
    decreases |more|
  {
    if more == [] {
      assert text + more == text;
    } else {
      var longer := text + [more[0]];
      assert text + more == longer + more[1..];
      assert longer[..|longer| - 1] == text;
      ScanContinues(longer, more[1..]);
    }
  }

  ghost predicate Sensible(s: State) {
    && (forall i | 0 <= i < |s.stack| :: IsOpen(s.stack[i]))
    && (s.escaped ==> s.quote.Some?) && (s.quote.Some? ==> IsQuote(s.quote.value))
  }

  lemma {:induction false} ScanIsSensible(text: string)
    requires Scan(text).Some?
    ensures Sensible(Scan(text).value)
  {
    if text != [] { ScanIsSensible(text[..|text| - 1]); }
  }

  lemma {:induction false} ClosersClose(stack: seq<char>)
    requires Sensible(State(stack, None, false))
    ensures ScanFrom(State(stack, None, false), Closers(stack)) == Some(Start)
  {
    if stack != [] { ClosersClose(stack[..|stack| - 1]); }
  }

  lemma QuoteCloses(s: State)
    requires Sensible(s) && s.quote.Some? && !s.escaped
    ensures ScanFrom(s, [s.quote.value] + Closers(s.stack)) == Some(Start)
  {
    ClosersClose(s.stack);
  }

  lemma EscapeCloses(s: State)
    requires Sensible(s) && s.escaped
    ensures ScanFrom(s, "x" + [s.quote.value] + Closers(s.stack)) == Some(Start)
  {
    QuoteCloses(s.(escaped := false));
    assert "x" + [s.quote.value] + Closers(s.stack) == ['x'] + ([s.quote.value] + Closers(s.stack));
  }

  lemma CompletionCompletes(s: State)
    requires Sensible(s)
    ensures ScanFrom(s, Completion(s)) == Some(Start)
  {
    if s.escaped {
      EscapeCloses(s);
    } else if s.quote.Some? {
      QuoteCloses(s);
      assert "" + [s.quote.value] + Closers(s.stack) == [s.quote.value] + Closers(s.stack);
    } else {
      ClosersClose(s.stack);
      assert "" + "" + Closers(s.stack) == Closers(s.stack);
    }
  }

  /** A text can still be completed to one of the grammar exactly when scanning never met a
      closing bracket without its partner. */
  ghost predicate Completable(text: string) { exists more: string :: Derives(text + more) }

  lemma ScannedIsCompletable(text: string)
    ensures Completable(text) <==> Scan(text).Some?
  {
    if Scan(text).Some? {
      var s := Scan(text).value;
      ScanIsSensible(text);
      CompletionCompletes(s);
      ScanContinues(text, Completion(s));
      BalancedIsDerivable(text + Completion(s));
    }
    if more: string :| Derives(text + more) {
      BalancedIsDerivable(text + more);
      ScanContinues(text, more);
    }
  }

  // ---------------------------------------------------------------- the checker

  datatype Complaint = UnbalancedDelimiter | UnterminatedStringOrDelimiter

  /** No complaint exactly for the texts of the grammar; `unterminated` exactly when more text
      would still help. */
  method BalancedDelimiterIssues(value: string) returns (issue: Option<Complaint>)
    ensures issue.None? <==> Derives(value)
    ensures issue == Some(UnterminatedStringOrDelimiter) <==> !Derives(value) && Completable(value)
    ensures issue == Some(UnbalancedDelimiter) <==> !Completable(value)
  {
    var stack: seq<char>, quote: Option<char>, escaped := [], None, false;
    for i := 0 to |value|
      invariant Scan(value[..i]) == Some(State(stack, quote, escaped))
    {
      var character := value[i];
      assert value[..i + 1][..i] == value[..i];
      if quote.Some? {
        if escaped {
          escaped := false;
        } else if character == '\\' {
          escaped := true;
        } else if character == quote.value {
          quote := None;
        }
        continue;
      }
      if IsQuote(character) {
        quote := Some(character);
      } else if IsOpen(character) {
        stack := stack + [character];
      } else if IsClose(character) {
        if stack == [] || stack[|stack| - 1] != Opener(character) {
          assert value == value[..i + 1] + value[i + 1..];
          ScanContinues(value[..i + 1], value[i + 1..]);
          ScannedIsCompletable(value);
          assert value + "" == value;
          return Some(UnbalancedDelimiter);
        }
        stack := stack[..|stack| - 1];
      }
    }
    assert value[..|value|] == value && value + "" == value;
    ScannedIsCompletable(value);
    BalancedIsDerivable(value);
    if quote.Some? || stack != [] { return Some(UnterminatedStringOrDelimiter); }
    return None;
  }
}
