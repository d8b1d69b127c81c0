/**
 Parsing and showing a message are inverse, so transliteration keeps braces,
 arguments and case keys, gives a message that is accepted again, and a second
 pass changes nothing.
 */
module IcuProofs {
  import opened Braces
  import opened Transliteration
  import opened IcuMessage

  // The grammar of accepted messages

  /** A name or a type. */
  predicate Word(s: string) { forall i | 0 <= i < |s| :: s[i] != ',' && s[i] != '}' }

  /** A key or an end: the only brace is the last character. */
  predicate OnlyBraceLast(s: string, brace: char) { s != "" && s[|s| - 1] == brace && NoBraces(s[..|s| - 1]) }

  ghost predicate FineMessage(k: Classes, m: Message) {
    match m
    case End(text) => NoBraces(text)
    case Then(text, arg, rest) => NoBraces(text) && FineArg(k, arg) && FineMessage(k, rest)
  }

  /** A typed argument runs to the brace that closes it. */
  ghost predicate FineArg(k: Classes, a: Arg) {
    match a
    case Named(name) => Word(name)
    case Typed(name, kind, rest) =>
      && Word(name) && Word(kind) && !HoldsCases(k, kind)
      && rest != "" && (rest[0] == ',' || rest[0] == '}') && Closed(ShowArg(a))
    case Choice(name, kind, cases) => Word(name) && Word(kind) && HoldsCases(k, kind) && FineCases(k, cases)
  }

  ghost predicate FineCases(k: Classes, c: Cases) {
    match c
    case Done(tail) => OnlyBraceLast(tail, '}') && Blank(k, tail[..|tail| - 1])
    case Case(key, body, more) =>
      OnlyBraceLast(key, '{') && !Blank(k, key[..|key| - 1]) && FineMessage(k, body) && FineCases(k, more)
  }

  // Parsing what was shown

  /** What Find returns is the only place it could be. */
  lemma FindIs(s: string, i: nat, a: char, b: char, r: nat)
    requires i <= r < |s| && (s[r] == a || s[r] == b) && forall j | i <= j < r :: s[j] != a && s[j] != b
    ensures Find(s, i, a, b) == r
  {
  }

  lemma FirstBrace(t: string, rest: string)
    requires NoBraces(t) && (rest == "" || Brace(rest[0]))
    ensures Find(t + rest, 0, '{', '}') == |t|
  {
    if rest != "" {
      FindIs(t + rest, 0, '{', '}', |t|);
    }
  }

  /** What ends a name or a type is found after it. */
  lemma WordFound(p: string, w: string, rest: string)
    requires Word(w) && rest != "" && (rest[0] == ',' || rest[0] == '}')
    ensures Find(p + (w + rest), |p|, ',', '}') == |p| + |w| < |p + (w + rest)|
  {
    Middle(p, w, rest);
    FindIs(p + (w + rest), |p|, ',', '}', |p| + |w|);
  }

  /** Where the name and the type of an argument end. */
  lemma HeadFound(name: string, kind: string, rest: string)
    requires Word(name) && Word(kind) && rest != "" && (rest[0] == ',' || rest[0] == '}')
    ensures var s, n := Head(name, kind) + rest, 1 + |name|;
            var t := n + 1 + |kind|;
            && s[0] == '{' && n == Find(s, 1, ',', '}') < |s| && s[n] == ',' && s[1..n] == name
            && t == Find(s, n + 1, ',', '}') < |s| && s[t] == rest[0] && s[n + 1..t] == kind && s[t..] == rest
  {
    var s, front := Head(name, kind) + rest, ['{'] + (name + [',']);
    assert s == ['{'] + (name + ([','] + (kind + rest)));
    assert s == front + (kind + rest);
    WordFound(['{'], name, [','] + (kind + rest));
    Middle(['{'], name, [','] + (kind + rest));
    WordFound(front, kind, rest);
    Middle(front, kind, rest);
  }

  lemma ArgStarts(a: Arg)
    ensures ShowArg(a) != "" && ShowArg(a)[0] == '{'
  {
  }

  lemma {:induction false} ParsesMessage(k: Classes, m: Message, rest: string, nested: bool)
    requires FineMessage(k, m) && (if nested then rest != "" && rest[0] == '}' else rest == "")
    ensures ParseMessage(k, ShowMessage(m) + rest, nested) == Ok(Parsed(m, rest))
    decreases m
  {
    match m
    case End(text) =>
      FirstBrace(text, rest);
      assert (text + rest)[..|text|] == text && (text + rest)[|text|..] == rest;
      assert rest == "" ==> text + rest == text;
    case Then(text, arg, more) =>
      var s := ShowArg(arg) + (ShowMessage(more) + rest);
      ArgStarts(arg);
      FirstBrace(text, s);
      assert ShowMessage(m) + rest == text + s;
      assert (text + s)[..|text|] == text && (text + s)[|text|..] == s;
      ParsesArg(k, arg, ShowMessage(more) + rest);
      ParsesMessage(k, more, rest, nested);
  }

  /** Each way an argument can be read, from where its name and type end. */
  lemma ReadNamed(k: Classes, s: string, n: nat)
    requires s != "" && s[0] == '{' && n == Find(s, 1, ',', '}') && (n < |s| ==> s[n] == '}')
    ensures ParseArg(k, s) == if n == |s| then Err else Ok(Parsed(Named(s[1..n]), s[n + 1..]))
  {
  }

  lemma ReadTyped(k: Classes, s: string, n: nat, t: nat)
    requires s != "" && s[0] == '{' && n == Find(s, 1, ',', '}') < |s| && s[n] == ',' && t == Find(s, n + 1, ',', '}')
    requires t < |s| ==> !HoldsCases(k, s[n + 1..t])
    ensures var c := Close(s, 0, 0);
            && (t == |s| || c == |s| ==> ParseArg(k, s) == Err)
            && (t < |s| && c < |s| ==>
                t <= c && ParseArg(k, s) == Ok(Parsed(Typed(s[1..n], s[n + 1..t], s[t..c + 1]), s[c + 1..])))
  {
  }

  lemma ReadChoice(k: Classes, s: string, n: nat, t: nat)
    requires s != "" && s[0] == '{' && n == Find(s, 1, ',', '}') < |s| && s[n] == ','
    requires t == Find(s, n + 1, ',', '}') < |s| && HoldsCases(k, s[n + 1..t])
    ensures var cases := ParseCases(k, s[t + 1..]);
            ParseArg(k, s) == if s[t] == '}' || cases.Err? then Err
                              else Ok(Parsed(Choice(s[1..n], s[n + 1..t], cases.value.value), cases.value.rest))
  {
  }

  lemma ParsesTyped(k: Classes, a: Arg, rest: string)
    requires a.Typed? && FineArg(k, a)
    ensures ShowArg(a) != "" && ShowArg(a)[0] == '{' && ParseArg(k, ShowArg(a) + rest) == Ok(Parsed(a, rest))
  {
    var x, t := ShowArg(a), |Head(a.name, a.kind)|;
    var s := x + rest;
    assert s == Head(a.name, a.kind) + (a.rest + rest);
    HeadFound(a.name, a.kind, a.rest + rest);
    assert Close(s, 0, 0) == |x| - 1 by {
      ClosesThere(x, rest);
    }
    assert s[t..|x|] == a.rest && s[|x|..] == rest;
    ReadTyped(k, s, 1 + |a.name|, t);
  }

  lemma ParsesNamed(k: Classes, name: string, rest: string)
    requires Word(name)
    ensures ParseArg(k, ['{'] + (name + (['}'] + rest))) == Ok(Parsed(Named(name), rest))
  {
    WordFound(['{'], name, ['}'] + rest);
    Middle(['{'], name, ['}'] + rest);
    var s := ['{'] + (name + (['}'] + rest));
    assert s[2 + |name|..] == (['}'] + rest)[1..] == rest;
  }

  lemma ParsesChoice(k: Classes, name: string, kind: string, cases: Cases, rest: string)
    requires Word(name) && Word(kind) && HoldsCases(k, kind)
    requires ParseCases(k, ShowCases(cases) + rest) == Ok(Parsed(cases, rest))
    ensures ParseArg(k, Head(name, kind) + ([','] + (ShowCases(cases) + rest))) == Ok(Parsed(Choice(name, kind, cases), rest))
  {
    var u := [','] + (ShowCases(cases) + rest);
    HeadFound(name, kind, u);
    var s, t := Head(name, kind) + u, |Head(name, kind)|;
    assert s[t + 1..] == ShowCases(cases) + rest by {
      SplitAt(s, t, t);
      assert u[1..] == ShowCases(cases) + rest;
    }
    ReadChoice(k, s, 1 + |name|, t);
  }

  lemma {:induction false} ParsesArg(k: Classes, a: Arg, rest: string)
    requires FineArg(k, a)
    ensures ShowArg(a) != "" && ShowArg(a)[0] == '{' && ParseArg(k, ShowArg(a) + rest) == Ok(Parsed(a, rest))
    decreases a
  {
    match a
    case Named(name) =>
      assert ShowArg(a) + rest == ['{'] + (name + (['}'] + rest));
      ParsesNamed(k, name, rest);
    case Typed(_, _, _) =>
      ParsesTyped(k, a, rest);
    case Choice(name, kind, cases) =>
      Four(Head(name, kind), [','], ShowCases(cases), rest);
      ParsesCases(k, cases, rest);
      ParsesChoice(k, name, kind, cases, rest);
  }

  lemma {:induction false} ParsesCases(k: Classes, c: Cases, rest: string)
    requires FineCases(k, c)
    ensures ParseCases(k, ShowCases(c) + rest) == Ok(Parsed(c, rest))
    decreases c
  {
    match c
    case Done(tail) =>
      BraceFound(tail, '}', rest);
    case Case(key, body, more) =>
      var after := ['}'] + (ShowCases(more) + rest);
      assert after[1..] == ShowCases(more) + rest;
      BraceFound(key, '{', ShowMessage(body) + after);
      Five(key, ShowMessage(body), ['}'], ShowCases(more), rest);
      ParsesMessage(k, body, after, true);
      ParsesCases(k, more, rest);
  }

  /** A key or an end is found at its brace. */
  lemma BraceFound(x: string, brace: char, rest: string)
    requires Brace(brace) && OnlyBraceLast(x, brace)
    ensures Find(x + rest, 0, '{', '}') == |x| - 1
    ensures (x + rest)[|x| - 1] == brace && (x + rest)[..|x| - 1] == x[..|x| - 1]
    ensures (x + rest)[..|x|] == x && (x + rest)[|x|..] == rest
  {
    var front := x[..|x| - 1];
    assert x + rest == front + ([brace] + rest);
    FirstBrace(front, [brace] + rest);
  }

  // Showing what was parsed

  lemma UnfoldMessage(k: Classes, s: string, nested: bool) returns (t: string, u: string)
    requires ParseMessage(k, s, nested).Ok?
    ensures s == t + u && NoBraces(t) && (u == "" || Brace(u[0]))
    ensures u == "" || u[0] == '}' ==> ParseMessage(k, s, nested) == Ok(Parsed(End(t), u))
    ensures u != "" && u[0] == '{' ==>
      && ParseArg(k, u).Ok? && ParseMessage(k, ParseArg(k, u).value.rest, nested).Ok?
      && var rest := ParseMessage(k, ParseArg(k, u).value.rest, nested).value;
      ParseMessage(k, s, nested) == Ok(Parsed(Then(t, ParseArg(k, u).value.value, rest.value), rest.rest))
  {
    var i := Find(s, 0, '{', '}');
    t, u := s[..i], s[i..];
    assert i == |s| ==> t == s;
  }

  lemma {:induction false} ShowsMessage(k: Classes, s: string, nested: bool)
    requires ParseMessage(k, s, nested).Ok?
    ensures var p := ParseMessage(k, s, nested).value; FineMessage(k, p.value) && s == ShowMessage(p.value) + p.rest
    decreases |s|, 1
  {
    var t, u := UnfoldMessage(k, s, nested);
    if u != "" && u[0] == '{' {
      var arg := ParseArg(k, u).value;
      var rest := ParseMessage(k, arg.rest, nested).value;
      ShowsArg(k, u);
      ShowsMessage(k, arg.rest, nested);
      Four(t, ShowArg(arg.value), ShowMessage(rest.value), rest.rest);
    }
  }

  lemma WordBefore(s: string, i: nat, n: nat)
    requires i <= |s| && n == Find(s, i, ',', '}')
    ensures Word(s[i..n])
  {
  }

  /** An argument up to the end of its type, and the rest. */
  lemma SplitHead(s: string, n: nat, t: nat)
    requires s != "" && s[0] == '{' && n == Find(s, 1, ',', '}') < |s| && s[n] == ',' && t == Find(s, n + 1, ',', '}') < |s|
    ensures Word(s[1..n]) && Word(s[n + 1..t]) && |Head(s[1..n], s[n + 1..t])| == t
    ensures s == Head(s[1..n], s[n + 1..t]) + s[t..] && s[t..] == [s[t]] + s[t + 1..]
  {
    WordBefore(s, 1, n);
    WordBefore(s, n + 1, t);
    CutTwice(s, n, t);
  }

  lemma ShowsNamed(k: Classes, s: string, n: nat)
    requires s != "" && s[0] == '{' && n == Find(s, 1, ',', '}') < |s| && s[n] == '}'
    ensures FineArg(k, Named(s[1..n])) && s == ShowArg(Named(s[1..n])) + s[n + 1..]
  {
    WordBefore(s, 1, n);
    CutOnce(s, n);
    Four(['{'], s[1..n], ['}'], s[n + 1..]);
  }

  lemma TypedText(s: string, n: nat, t: nat, c: nat)
    requires 1 <= n < t <= c < |s| && s[0] == '{' && s[n] == ','
    ensures ShowArg(Typed(s[1..n], s[n + 1..t], s[t..c + 1])) == s[..c + 1]
  {
    CutTwice(s[..c + 1], n, t);
    assert s[..c + 1][1..n] == s[1..n] && s[..c + 1][n + 1..t] == s[n + 1..t] && s[..c + 1][t..] == s[t..c + 1];
  }

  lemma ShowsTyped(k: Classes, s: string, n: nat, t: nat, c: nat)
    requires s != "" && s[0] == '{' && n == Find(s, 1, ',', '}') < |s| && s[n] == ',' && t == Find(s, n + 1, ',', '}') < |s|
    requires !HoldsCases(k, s[n + 1..t]) && c == Close(s, 0, 0) < |s| && t <= c
    ensures FineArg(k, Typed(s[1..n], s[n + 1..t], s[t..c + 1]))
    ensures s == ShowArg(Typed(s[1..n], s[n + 1..t], s[t..c + 1])) + s[c + 1..]
  {
    WordBefore(s, 1, n);
    WordBefore(s, n + 1, t);
    TypedText(s, n, t, c);
    ClosedAt(s, c);
    assert s == s[..c + 1] + s[c + 1..];
  }

  lemma HeadText(s: string, n: nat, t: nat)
    requires 1 <= n < t < |s| && s[0] == '{' && s[n] == ',' && s[t] == ','
    ensures Head(s[1..n], s[n + 1..t]) + [','] == s[..t + 1]
  {
  }

  lemma ShowsChoice(k: Classes, s: string, n: nat, t: nat, cases: Parsed<Cases>)
    requires s != "" && s[0] == '{' && n == Find(s, 1, ',', '}') < |s| && s[n] == ','
    requires t == Find(s, n + 1, ',', '}') < |s| && s[t] == ',' && HoldsCases(k, s[n + 1..t])
    requires FineCases(k, cases.value) && s[t + 1..] == ShowCases(cases.value) + cases.rest
    ensures FineArg(k, Choice(s[1..n], s[n + 1..t], cases.value))
    ensures s == ShowArg(Choice(s[1..n], s[n + 1..t], cases.value)) + cases.rest
  {
    SplitHead(s, n, t);
    Four(Head(s[1..n], s[n + 1..t]), [','], ShowCases(cases.value), cases.rest);
  }

  lemma {:induction false} ShowsArg(k: Classes, s: string)
    requires s != "" && s[0] == '{' && ParseArg(k, s).Ok?
    ensures var p := ParseArg(k, s).value; FineArg(k, p.value) && s == ShowArg(p.value) + p.rest
    decreases |s|, 0
  {
    var n := Find(s, 1, ',', '}');
    if s[n] == '}' {
      ShowsNamed(k, s, n);
    } else {
      var t := Find(s, n + 1, ',', '}');
      if HoldsCases(k, s[n + 1..t]) {
        ReadChoice(k, s, n, t);
        ShowsCases(k, s[t + 1..]);
        ShowsChoice(k, s, n, t, ParseCases(k, s[t + 1..]).value);
      } else {
        ReadTyped(k, s, n, t);
        ShowsTyped(k, s, n, t, Close(s, 0, 0));
      }
    }
  }

  /** The key and the rest. */
  lemma SplitCases(k: Classes, s: string) returns (t: string, u: string)
    requires ParseCases(k, s).Ok?
    ensures s == t + u && NoBraces(t) && u != "" && Brace(u[0]) && Find(s, 0, '{', '}') == |t|
  {
    var o := Find(s, 0, '{', '}');
    t, u := s[..o], s[o..];
  }

  lemma UnfoldCases(k: Classes, s: string, t: string, u: string) returns (body: Parsed<Message>, more: Parsed<Cases>)
    requires ParseCases(k, s).Ok? && u != "" && Brace(u[0])
    requires Find(s, 0, '{', '}') == |t| < |s| && s[..|t|] == t && s[|t|] == u[0]
    requires s[..|t| + 1] == t + [u[0]] && s[|t| + 1..] == u[1..]
    ensures u[0] == '}' ==> ParseCases(k, s) == Ok(Parsed(Done(t + ['}']), u[1..])) && Blank(k, t)
    ensures u[0] == '{' ==>
      && !Blank(k, t) && ParseMessage(k, u[1..], true) == Ok(body)
      && body.rest != "" && body.rest[0] == '}' && ParseCases(k, body.rest[1..]) == Ok(more)
      && ParseCases(k, s) == Ok(Parsed(Case(t + ['{'], body.value, more.value), more.rest))
  {
    body, more := Parsed(End(""), ""), Parsed(Done(""), "");
    if u[0] == '{' {
      body := ParseMessage(k, u[1..], true).value;
      more := ParseCases(k, body.rest[1..]).value;
    }
  }

  lemma KeyEnds(t: string, brace: char)
    requires NoBraces(t)
    ensures OnlyBraceLast(t + [brace], brace) && (t + [brace])[..|t|] == t && |t + [brace]| == |t| + 1
  {
    assert (t + [brace])[..|t|] == t;
  }

  lemma {:induction false} ShowsCases(k: Classes, s: string)
    requires ParseCases(k, s).Ok?
    ensures var p := ParseCases(k, s).value; FineCases(k, p.value) && s == ShowCases(p.value) + p.rest
    decreases |s|, 2
  {
    var t, u := SplitCases(k, s);
    Halves(s, t, u);
    var body, more := UnfoldCases(k, s, t, u);
    FirstApart(u);
    KeyEnds(t, u[0]);
    Three(t, [u[0]], u[1..]);
    if u[0] == '{' {
      ShowsMessage(k, u[1..], true);
      ShowsCases(k, body.rest[1..]);
      FirstApart(body.rest);
      Five(t + ['{'], ShowMessage(body.value), ['}'], ShowCases(more.value), more.rest);
    }
  }

  // Transliteration

  lemma {:induction false} LatinMessageIsFine(k: Classes, m: Message)
    requires k.Sane() && FineMessage(k, m)
    ensures FineMessage(k, LatinMessage(k, m)) && LatinMessage(k, LatinMessage(k, m)) == LatinMessage(k, m)
    decreases m
  {
    WritesNoBraces(k, m.text, |m.text|);
    TextIsIdempotent(k, m.text);
    if m.Then? {
      LatinArgIsFine(k, m.arg);
      LatinMessageIsFine(k, m.rest);
    }
  }

  lemma {:induction false} LatinArgIsFine(k: Classes, a: Arg)
    requires k.Sane() && FineArg(k, a)
    ensures FineArg(k, LatinArg(k, a)) && LatinArg(k, LatinArg(k, a)) == LatinArg(k, a)
    decreases a
  {
    if a.Choice? {
      LatinCasesAreFine(k, a.cases);
    }
  }

  lemma {:induction false} LatinCasesAreFine(k: Classes, c: Cases)
    requires k.Sane() && FineCases(k, c)
    ensures FineCases(k, LatinCases(k, c)) && LatinCases(k, LatinCases(k, c)) == LatinCases(k, c)
    decreases c
  {
    if c.Case? {
      LatinMessageIsFine(k, c.body);
      LatinCasesAreFine(k, c.more);
    }
  }

  /** The transliteration of a whole message, when it is accepted. */
  function Transliterated(k: Classes, s: string): Result<string> {
    var p :- ParseMessage(k, s, false);
    Ok(ShowMessage(LatinMessage(k, p.value)))
  }

  /** The transliterated message is accepted, and its parts are those of the
      original with only the texts changed. */
  lemma StructureIsKept(k: Classes, s: string)
    requires k.Sane() && ParseMessage(k, s, false).Ok?
    ensures ParseMessage(k, Transliterated(k, s).value, false)
            == Ok(Parsed(LatinMessage(k, ParseMessage(k, s, false).value.value), ""))
  {
    var m := ParseMessage(k, s, false).value.value;
    ShowsMessage(k, s, false);
    LatinMessageIsFine(k, m);
    ParsesMessage(k, LatinMessage(k, m), "", false);
    assert ShowMessage(LatinMessage(k, m)) + "" == ShowMessage(LatinMessage(k, m));
  }

  /** A second pass changes nothing. */
  lemma SecondPassChangesNothing(k: Classes, s: string)
    requires k.Sane() && Transliterated(k, s).Ok?
    ensures Transliterated(k, Transliterated(k, s).value) == Transliterated(k, s)
  {
    StructureIsKept(k, s);
    ShowsMessage(k, s, false);
    LatinMessageIsFine(k, ParseMessage(k, s, false).value.value);
  }

  /** A message is accepted as some parts exactly when they are well formed and
      it is their text. */
  lemma AcceptedExactly(k: Classes, s: string, m: Message)
    ensures ParseMessage(k, s, false) == Ok(Parsed(m, "")) <==> FineMessage(k, m) && ShowMessage(m) == s
  {
    if FineMessage(k, m) {
      ParsesMessage(k, m, "", false);
      assert ShowMessage(m) + "" == ShowMessage(m);
    }
    if ParseMessage(k, s, false).Ok? {
      ShowsMessage(k, s, false);
      var p := ParseMessage(k, s, false).value;
      assert ShowMessage(p.value) + "" == ShowMessage(p.value);
    }
  }

  // With the tables the program runs with

  lemma SerbianKeepsStructure(alpha: set<char>, upper: set<char>, space: set<char>, s: string)
    requires Transliterated(Serbian(alpha, upper, space), s).Ok?
    ensures var k := Serbian(alpha, upper, space);
            && ParseMessage(k, Transliterated(k, s).value, false)
               == Ok(Parsed(LatinMessage(k, ParseMessage(k, s, false).value.value), ""))
            && Transliterated(k, Transliterated(k, s).value) == Transliterated(k, s)
            && BracesOf(Transliterated(k, s).value) == BracesOf(s)
  {
    var k := Serbian(alpha, upper, space);
    SerbianIsSane(alpha, upper, space);
    StructureIsKept(k, s);
    SecondPassChangesNothing(k, s);
    BracesAreKept(k, s);
  }

  // The braces themselves

  lemma {:induction false} MessageBraces(k: Classes, m: Message)
    requires k.Sane() && FineMessage(k, m)
    ensures BracesOf(ShowMessage(LatinMessage(k, m))) == BracesOf(ShowMessage(m))
    decreases m
  {
    var text := TransliterateText(k, m.text);
    WritesNoBraces(k, m.text, |m.text|);
    NoneToKeep(m.text);
    NoneToKeep(text);
    if m.Then? {
      ArgBraces(k, m.arg);
      MessageBraces(k, m.rest);
      var a, r := LatinArg(k, m.arg), LatinMessage(k, m.rest);
      BracesJoin(m.text, ShowArg(m.arg) + ShowMessage(m.rest));
      BracesJoin(ShowArg(m.arg), ShowMessage(m.rest));
      BracesJoin(text, ShowArg(a) + ShowMessage(r));
      BracesJoin(ShowArg(a), ShowMessage(r));
    }
  }

  lemma {:induction false} ArgBraces(k: Classes, a: Arg)
    requires k.Sane() && FineArg(k, a)
    ensures BracesOf(ShowArg(LatinArg(k, a))) == BracesOf(ShowArg(a))
    decreases a
  {
    if a.Choice? {
      CasesBraces(k, a.cases);
      var c := LatinCases(k, a.cases);
      BracesJoin(Head(a.name, a.kind), [','] + ShowCases(a.cases));
      BracesJoin([','], ShowCases(a.cases));
      BracesJoin(Head(a.name, a.kind), [','] + ShowCases(c));
      BracesJoin([','], ShowCases(c));
    }
  }

  lemma {:induction false} CasesBraces(k: Classes, c: Cases)
    requires k.Sane() && FineCases(k, c)
    ensures BracesOf(ShowCases(LatinCases(k, c))) == BracesOf(ShowCases(c))
    decreases c
  {
    if c.Case? {
      MessageBraces(k, c.body);
      CasesBraces(k, c.more);
      CaseBraces(c.key, ShowMessage(c.body), ShowCases(c.more));
      CaseBraces(c.key, ShowMessage(LatinMessage(k, c.body)), ShowCases(LatinCases(k, c.more)));
    }
  }

  lemma CaseBraces(key: string, body: string, more: string)
    ensures BracesOf(key + (body + (['}'] + more))) == BracesOf(key) + (BracesOf(body) + (BracesOf(['}']) + BracesOf(more)))
  {
    BracesJoin(key, body + (['}'] + more));
    BracesJoin(body, ['}'] + more);
    BracesJoin(['}'], more);
  }

  /** The output has the input's braces, in the same order. */
  lemma BracesAreKept(k: Classes, s: string)
    requires k.Sane() && Transliterated(k, s).Ok?
    ensures BracesOf(Transliterated(k, s).value) == BracesOf(s)
  {
    var p := ParseMessage(k, s, false).value;
    ShowsMessage(k, s, false);
    assert ShowMessage(p.value) + "" == ShowMessage(p.value);
    MessageBraces(k, p.value);
  }

  // Balance

  /** No opening brace is swallowed by a name or a type. A typed argument that
      is copied whole may hold some: it runs to the brace that closes it. */
  predicate NoStrayMessage(m: Message) {
    match m
    case End(_) => true
    case Then(_, arg, rest) => NoStrayArg(arg) && NoStrayMessage(rest)
  }

  predicate NoStrayArg(a: Arg) {
    match a
    case Named(name) => '{' !in name
    case Typed(_, _, _) => true
    case Choice(name, kind, cases) => '{' !in name && '{' !in kind && NoStrayCases(cases)
  }

  predicate NoStrayCases(c: Cases) {
    match c
    case Done(_) => true
    case Case(_, body, more) => NoStrayMessage(body) && NoStrayCases(more)
  }

  lemma ClosedNet(s: string)
    requires Closed(s)
    ensures Floor(s, 0) && Net(s) == 0
  {
  }

  lemma NamedNet(name: string)
    requires Word(name)
    ensures var s := ['{'] + (name + ['}']); Floor(s, 0) && Net(s) >= 0 && (Net(s) == 0 <==> '{' !in name)
  {
    OpeningNet(name);
    OneNet('{');
    OneNet('}');
    Join(name, ['}'], 1);
    Join(['{'], name + ['}'], 0);
  }

  lemma HeadNet(name: string, kind: string)
    requires Word(name) && Word(kind)
    ensures Floor(Head(name, kind), 0) && Net(Head(name, kind)) >= 1
    ensures Net(Head(name, kind)) == 1 <==> '{' !in name && '{' !in kind
  {
    OpeningNet(name);
    OpeningNet(kind);
    OneNet('{');
    OneNet(',');
    Join([','], kind, 0);
    Join(name, [','] + kind, 0);
    Join(['{'], name + ([','] + kind), 0);
  }

  lemma {:induction false} MessageNet(k: Classes, m: Message)
    requires FineMessage(k, m)
    ensures Floor(ShowMessage(m), 0) && Net(ShowMessage(m)) >= 0 && (Net(ShowMessage(m)) == 0 <==> NoStrayMessage(m))
    decreases m
  {
    TextNet(m.text);
    if m.Then? {
      ArgNet(k, m.arg);
      MessageNet(k, m.rest);
      Join(ShowArg(m.arg), ShowMessage(m.rest), 0);
      Join(m.text, ShowArg(m.arg) + ShowMessage(m.rest), 0);
    }
  }

  lemma {:induction false} ArgNet(k: Classes, a: Arg)
    requires FineArg(k, a)
    ensures Floor(ShowArg(a), 0) && Net(ShowArg(a)) >= 0 && (Net(ShowArg(a)) == 0 <==> NoStrayArg(a))
    decreases a
  {
    match a
    case Named(name) => NamedNet(name);
    case Typed(_, _, _) => ClosedNet(ShowArg(a));
    case Choice(name, kind, cases) =>
      HeadNet(name, kind);
      CasesNet(k, cases);
      OneNet(',');
      Join([','], ShowCases(cases), Net(Head(name, kind)));
      Join(Head(name, kind), [','] + ShowCases(cases), 0);
  }

  /** A key before its brace, or the end's blanks before theirs. */
  lemma LastNet(x: string, brace: char)
    requires Brace(brace) && OnlyBraceLast(x, brace)
    ensures Net(x) == Step(brace) && Floor(x, 1) && (brace == '{' ==> Floor(x, 0))
  {
    var front := x[..|x| - 1];
    assert x == front + [brace];
    TextNet(front);
    OneNet(brace);
    Join(front, [brace], 1);
    if brace == '{' {
      Join(front, [brace], 0);
    }
  }

  /** The cases close the brace that their argument opened. */
  lemma {:induction false} CasesNet(k: Classes, c: Cases)
    requires FineCases(k, c)
    ensures Floor(ShowCases(c), 1) && Net(ShowCases(c)) >= -1 && (Net(ShowCases(c)) == -1 <==> NoStrayCases(c))
    decreases c
  {
    match c
    case Done(tail) => LastNet(tail, '}');
    case Case(key, body, more) =>
      LastNet(key, '{');
      MessageNet(k, body);
      CasesNet(k, more);
      OneNet('}');
      var b := Net(ShowMessage(body));
      Join(['}'], ShowCases(more), 2 + b);
      Join(ShowMessage(body), ['}'] + ShowCases(more), 2);
      Join(key, ShowMessage(body) + (['}'] + ShowCases(more)), 1);
  }

  /** An accepted message's braces balance exactly when no name, and no type of a
      plural or select, holds an opening brace. */
  lemma BalancedExactly(k: Classes, s: string)
    requires ParseMessage(k, s, false).Ok?
    ensures Balanced(s) <==> NoStrayMessage(ParseMessage(k, s, false).value.value)
  {
    var p := ParseMessage(k, s, false).value;
    ShowsMessage(k, s, false);
    assert ShowMessage(p.value) + "" == ShowMessage(p.value);
    MessageNet(k, p.value);
  }

  /** Not every opening brace opens an argument: this name holds one. */
  lemma StrayBrace(k: Classes)
    ensures ParseMessage(k, "{a{b}", false).Ok? && !Balanced("{a{b}")
  {
    var m := Then("", Named("a{b"), End(""));
    assert ShowMessage(m) == "{a{b}" && FineMessage(k, m);
    AcceptedExactly(k, "{a{b}", m);
    assert "a{b"[1] == '{';
    BalancedExactly(k, "{a{b}");
  }
}
