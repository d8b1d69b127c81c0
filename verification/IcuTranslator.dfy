/**
 The transliterator as it runs: indices into one source string, loops that
 append to an output, and two mutually recursive methods. Each is proved to give
 the transliteration of the parts that the parser sees.
 */
module IcuTranslator {
  import opened Braces
  import opened Transliteration
  import opened IcuMessage
  import opened IcuProofs

  function MessageOut(k: Classes, s: string, nested: bool): Result<Parsed<string>> {
    var p :- ParseMessage(k, s, nested);
    Ok(Parsed(ShowMessage(LatinMessage(k, p.value)), p.rest))
  }

  function ArgOut(k: Classes, s: string): Result<Parsed<string>>
    requires s != "" && s[0] == '{'
  {
    var p :- ParseArg(k, s);
    Ok(Parsed(ShowArg(LatinArg(k, p.value)), p.rest))
  }

  function CasesOut(k: Classes, s: string): Result<Parsed<string>> {
    var p :- ParseCases(k, s);
    Ok(Parsed(ShowCases(LatinCases(k, p.value)), p.rest))
  }

  function After(x: string, r: Result<Parsed<string>>): Result<Parsed<string>> {
    if r.Ok? then Ok(Parsed(x + r.value.value, r.value.rest)) else Err
  }

  lemma AfterTwice(x: string, y: string, r: Result<Parsed<string>>)
    ensures After(x, After(y, r)) == After(x + y, r)
  {
    if r.Ok? {
      assert x + (y + r.value.value) == (x + y) + r.value.value;
    }
  }

  lemma AfterNothing(r: Result<Parsed<string>>)
    ensures After("", r) == r
  {
    if r.Ok? {
      assert "" + r.value.value == r.value.value;
    }
  }

  /** One argument and the text before it. */
  lemma MessageAtBrace(k: Classes, s: string, t: string, u: string, nested: bool)
    requires s == t + u && NoBraces(t) && u != "" && u[0] == '{'
    ensures MessageOut(k, s, nested) ==
            if ArgOut(k, u).Err? then Err
            else After(TransliterateText(k, t) + ArgOut(k, u).value.value, MessageOut(k, ArgOut(k, u).value.rest, nested))
  {
    FirstBrace(t, u);
    assert s[..|t|] == t && s[|t|..] == u;
    if ArgOut(k, u).Ok? {
      var arg := ParseArg(k, u).value;
      var rest := ParseMessage(k, arg.rest, nested);
      if rest.Ok? {
        Three(TransliterateText(k, t), ShowArg(LatinArg(k, arg.value)), ShowMessage(LatinMessage(k, rest.value.value)));
      }
    }
  }

  /** The last text of a message. */
  lemma MessageAtEnd(k: Classes, s: string, t: string, u: string, nested: bool)
    requires s == t + u && NoBraces(t) && (u == "" || u[0] == '}')
    ensures MessageOut(k, s, nested) ==
            if nested == (u == "") then Err else Ok(Parsed(TransliterateText(k, t), u))
  {
    FirstBrace(t, u);
    assert s[..|t|] == t && s[|t|..] == u;
    assert u == "" ==> s == t;
  }

  /** One case: its key, its message and its closing brace. */
  lemma CasesAtBrace(k: Classes, t: string, u: string)
    requires NoBraces(t) && !Blank(k, t)
    ensures CasesOut(k, t + (['{'] + u)) ==
            if MessageOut(k, u, true).Err? then Err
            else After((t + ['{']) + (MessageOut(k, u, true).value.value + ['}']),
                       CasesOut(k, MessageOut(k, u, true).value.rest[1..]))
  {
    var x := t + ['{'];
    KeyEnds(t, '{');
    Three(t, ['{'], u);
    BraceFound(x, '{', u);
    if MessageOut(k, u, true).Ok? {
      var body := ParseMessage(k, u, true).value;
      var more := ParseCases(k, body.rest[1..]);
      if more.Ok? {
        var b, m := ShowMessage(LatinMessage(k, body.value)), ShowCases(LatinCases(k, more.value.value));
        Three(b, ['}'], m);
        Three(x, b + ['}'], m);
      }
    }
  }

  /** r is what p says, as a place in the source. */
  predicate Gives(source: string, p: Result<Parsed<string>>, r: Result<(string, nat)>) {
    if p.Ok? then r.Ok? && r.value.1 <= |source| && r.value.0 == p.value.value && source[r.value.1..] == p.value.rest
    else r.Err?
  }

  lemma GivesOk(source: string, p: Result<Parsed<string>>, r: Result<(string, nat)>)
    requires Gives(source, p, r)
    ensures p == if r.Err? then Err else Ok(Parsed(r.value.0, source[r.value.1..]))
  {
  }

  method FindAny(s: string, index: nat, a: char, b: char) returns (r: Result<nat>)
    requires index <= |s|
    ensures r.Ok? ==> index <= r.value < |s| && (s[r.value] == a || s[r.value] == b)
    ensures forall j | index <= j < (if r.Ok? then r.value else |s|) :: s[j] != a && s[j] != b
  {
    var i := index;
    while i < |s|
      invariant index <= i <= |s| && forall j | index <= j < i :: s[j] != a && s[j] != b
    {
      if s[i] == a || s[i] == b {
        return Ok(i);
      }
      i := i + 1;
    }
    r := Err;
  }

  /** The first brace at which what was opened from index on is closed again. */
  method MatchingClose(s: string, index: nat) returns (r: Result<nat>)
    requires index <= |s|
    ensures r.Ok? ==> index <= r.value < |s| && ClosesAt(s, index, r.value)
    ensures forall j | index <= j < (if r.Ok? then r.value else |s|) :: !ClosesAt(s, index, j)
  {
    var depth := 0;
    for i := index to |s|
      invariant depth == Depth(s, index, i) && forall j | index <= j < i :: !ClosesAt(s, index, j)
    {
      if s[i] == '{' {
        depth := depth + 1;
      } else if s[i] == '}' {
        depth := depth - 1;
        if depth == 0 {
          return Ok(i);
        }
      }
    }
    r := Err;
  }

  // Places in the source and places in what remains of it

  function PlaceOf(s: string, r: Result<nat>): nat { if r.Ok? then r.value else |s| }

  lemma FoundInRest(source: string, i: nat, from: nat, a: char, b: char, r: Result<nat>)
    requires i <= from <= |source| && (r.Ok? ==> from <= r.value < |source| && (source[r.value] == a || source[r.value] == b))
    requires forall j | from <= j < PlaceOf(source, r) :: source[j] != a && source[j] != b
    ensures i + Find(source[i..], from - i, a, b) == PlaceOf(source, r)
    ensures r.Ok? ==> source[i..][r.value - i] == source[r.value]
  {
    var s := source[i..];
    assert forall j | from <= j < PlaceOf(source, r) :: s[j - i] == source[j];
    if r.Ok? {
      FindIs(s, from - i, a, b, r.value - i);
    }
  }

  /** The comma or brace that ends a name or a type of the argument at index. */
  method FindEnd(source: string, index: nat, from: nat) returns (r: Result<nat>)
    requires index <= from <= |source|
    ensures r.Ok? ==> from <= r.value < |source| && (source[r.value] == ',' || source[r.value] == '}')
    ensures index + Find(source[index..], from - index, ',', '}') == PlaceOf(source, r)
    ensures r.Ok? ==> source[index..][r.value - index] == source[r.value]
    ensures r.Ok? ==> source[index..][from - index..r.value - index] == source[from..r.value]
  {
    r := FindAny(source, from, ',', '}');
    FoundInRest(source, index, from, ',', '}', r);
    if r.Ok? {
      SliceOfRest(source, index, from - index, r.value);
    }
  }

  lemma ClosesInRest(source: string, i: nat, j: nat)
    requires i <= j < |source|
    ensures ClosesAt(source, i, j) <==> ClosesAt(source[i..], 0, j - i)
  {
    DepthSame(source, i, j + 1, source[i..], 0);
  }

  lemma ClosedInRest(source: string, i: nat, r: Result<nat>)
    requires i <= |source| && (r.Ok? ==> i <= r.value < |source| && ClosesAt(source, i, r.value))
    requires forall j | i <= j < PlaceOf(source, r) :: !ClosesAt(source, i, j)
    ensures i + Close(source[i..], 0, 0) == PlaceOf(source, r)
  {
    var c := Close(source[i..], 0, 0);
    if r.Ok? {
      ClosesInRest(source, i, r.value);
    }
    if i + c < |source| {
      ClosesInRest(source, i, i + c);
    }
    forall m | 0 <= m < PlaceOf(source, r) - i ensures !ClosesAt(source[i..], 0, m) {
      ClosesInRest(source, i, i + m);
    }
  }

  // The two recursive methods

  /** The message from index on is out followed by the message from start on. */
  ghost predicate Progress(k: Classes, source: string, index: nat, nested: bool, out: string, start: nat)
    requires index <= |source| && start <= |source|
  {
    MessageOut(k, source[index..], nested) == After(out, MessageOut(k, source[start..], nested))
  }

  lemma NothingWritten(k: Classes, source: string, index: nat, nested: bool)
    requires index <= |source|
    ensures Progress(k, source, index, nested, "", index)
  {
    AfterNothing(MessageOut(k, source[index..], nested));
  }

  lemma ArgumentWritten(k: Classes, source: string, index: nat, nested: bool, out: string, start: nat, i: nat,
                        arg: Result<(string, nat)>)
    requires index <= start <= i < |source| && source[i] == '{' && NoBraces(source[start..i])
    requires Progress(k, source, index, nested, out, start) && Gives(source, ArgOut(k, source[i..]), arg)
    ensures arg.Err? ==> MessageOut(k, source[index..], nested).Err?
    ensures arg.Ok? ==>
      Progress(k, source, index, nested, out + (TransliterateText(k, source[start..i]) + arg.value.0), arg.value.1)
  {
    SplitAt(source, start, i);
    MessageAtBrace(k, source[start..], source[start..i], source[i..], nested);
    if arg.Ok? {
      AfterTwice(out, TransliterateText(k, source[start..i]) + arg.value.0, MessageOut(k, source[arg.value.1..], nested));
    }
  }

  lemma LastTextWritten(k: Classes, source: string, index: nat, nested: bool, out: string, start: nat, i: nat)
    requires index <= start <= i <= |source| && NoBraces(source[start..i]) && (i == |source| || source[i] == '}')
    requires Progress(k, source, index, nested, out, start)
    ensures Gives(source, MessageOut(k, source[index..], nested),
                  if nested == (i == |source|) then Err else Ok((out + TransliterateText(k, source[start..i]), i)))
  {
    SplitAt(source, start, i);
    MessageAtEnd(k, source[start..], source[start..i], source[i..], nested);
  }

  method WriteMessage(k: Classes, source: string, index: nat, nested: bool) returns (r: Result<(string, nat)>)
    requires index <= |source|
    ensures Gives(source, MessageOut(k, source[index..], nested), r)
    ensures r.Ok? ==> index <= r.value.1 && (nested ==> r.value.1 < |source|)
    decreases |source| - index, 3
  {
    var out, start, i := "", index, index;
    NothingWritten(k, source, index, nested);
    while i < |source|
      invariant index <= start <= i <= |source| && NoBraces(source[start..i])
      invariant Progress(k, source, index, nested, out, start)
    {
      if source[i] == '{' {
        var text := WriteText(k, source[start..i]);
        var arg := WriteArgument(k, source, i);
        ArgumentWritten(k, source, index, nested, out, start, i, arg);
        if arg.Err? {
          return Err;
        }
        out := out + (text + arg.value.0);
        start, i := arg.value.1, arg.value.1;
      } else if source[i] == '}' {
        break;
      } else {
        assert source[start..i + 1] == source[start..i] + [source[i]];
        i := i + 1;
      }
    }
    LastTextWritten(k, source, index, nested, out, start, i);
    if nested == (i == |source|) {
      return Err;
    }
    var text := WriteText(k, source[start..i]);
    r := Ok((out + text, i));
  }

  /** What an argument gives, from where its name and type end. */
  lemma NamedOut(k: Classes, s: string, n: nat)
    requires s != "" && s[0] == '{' && n == Find(s, 1, ',', '}') < |s| && s[n] == '}'
    ensures ArgOut(k, s) == Ok(Parsed(s[..n + 1], s[n + 1..]))
  {
    ReadNamed(k, s, n);
    ShowsNamed(k, s, n);
    SplitAt(s, 0, n + 1);
    assert s[0..] == s && s[0..n + 1] == s[..n + 1];
  }

  lemma TypedOut(k: Classes, s: string, n: nat, t: nat)
    requires s != "" && s[0] == '{' && n == Find(s, 1, ',', '}') < |s| && s[n] == ','
    requires t == Find(s, n + 1, ',', '}') < |s| && !HoldsCases(k, s[n + 1..t])
    ensures var c := Close(s, 0, 0); ArgOut(k, s) == if c == |s| then Err else Ok(Parsed(s[..c + 1], s[c + 1..]))
  {
    ReadTyped(k, s, n, t);
    var c := Close(s, 0, 0);
    if c < |s| {
      TypedText(s, n, t, c);
    }
  }

  lemma ChoiceOut(k: Classes, s: string, n: nat, t: nat)
    requires s != "" && s[0] == '{' && n == Find(s, 1, ',', '}') < |s| && s[n] == ','
    requires t == Find(s, n + 1, ',', '}') < |s| && HoldsCases(k, s[n + 1..t])
    ensures ArgOut(k, s) == if s[t] == '}' then Err else After(s[..t + 1], CasesOut(k, s[t + 1..]))
  {
    ReadChoice(k, s, n, t);
    if s[t] == ',' && ParseCases(k, s[t + 1..]).Ok? {
      var head, cases := Head(s[1..n], s[n + 1..t]), ShowCases(LatinCases(k, ParseCases(k, s[t + 1..]).value.value));
      HeadText(s, n, t);
      Three(head, [','], cases);
    }
  }

  /** The same as a place in the source. */
  lemma CopiedGiven(k: Classes, source: string, index: nat, e: nat)
    requires index < e <= |source| && source[index] == '{'
    requires ArgOut(k, source[index..]) == Ok(Parsed(source[index..][..e - index], source[index..][e - index..]))
    ensures Gives(source, ArgOut(k, source[index..]), Ok((source[index..e], e)))
  {
    SliceOfRest(source, index, 0, e);
  }

  lemma ChoiceGiven(k: Classes, source: string, index: nat, e: nat, cases: Result<(string, nat)>)
    requires index < e <= |source| && source[index] == '{' && Gives(source, CasesOut(k, source[e..]), cases)
    requires ArgOut(k, source[index..]) == After(source[index..][..e - index], CasesOut(k, source[index..][e - index..]))
    ensures Gives(source, ArgOut(k, source[index..]),
                  if cases.Err? then Err else Ok((source[index..e] + cases.value.0, cases.value.1)))
  {
    SliceOfRest(source, index, 0, e);
  }

  method WriteArgument(k: Classes, source: string, index: nat) returns (r: Result<(string, nat)>)
    requires index < |source| && source[index] == '{'
    ensures Gives(source, ArgOut(k, source[index..]), r)
    ensures r.Ok? ==> index < r.value.1
    decreases |source| - index, 2
  {
    ghost var s := source[index..];
    var name := FindEnd(source, index, index + 1);
    if name.Err? {
      ReadNamed(k, s, |s|);
      return Err;
    }
    if source[name.value] == '}' {
      NamedOut(k, s, name.value - index);
      CopiedGiven(k, source, index, name.value + 1);
      return Ok((source[index..name.value + 1], name.value + 1));
    }
    r := WriteTyped(k, source, index, name.value);
  }

  /** What an argument gives once its type is found. */
  ghost predicate AsTyped(k: Classes, s: string, t: nat, cases: bool)
    requires s != "" && s[0] == '{' && t < |s|
  {
    if cases then ArgOut(k, s) == if s[t] == '}' then Err else After(s[..t + 1], CasesOut(k, s[t + 1..]))
    else Copied(k, s)
  }

  ghost predicate Copied(k: Classes, s: string)
    requires s != "" && s[0] == '{'
  {
    var c := Close(s, 0, 0);
    ArgOut(k, s) == if c == |s| then Err else Ok(Parsed(s[..c + 1], s[c + 1..]))
  }

  lemma KindRead(k: Classes, s: string, n: nat, t: nat, kind: string)
    requires s != "" && s[0] == '{' && n == Find(s, 1, ',', '}') < |s| && s[n] == ',' && t == Find(s, n + 1, ',', '}') < |s|
    requires kind == s[n + 1..t]
    ensures AsTyped(k, s, t, HoldsCases(k, kind))
  {
    if HoldsCases(k, s[n + 1..t]) {
      ChoiceOut(k, s, n, t);
    } else {
      TypedOut(k, s, n, t);
    }
  }

  lemma NoKind(k: Classes, s: string, n: nat)
    requires s != "" && s[0] == '{' && n == Find(s, 1, ',', '}') < |s| && s[n] == ',' && |s| == Find(s, n + 1, ',', '}')
    ensures ArgOut(k, s).Err?
  {
    ReadTyped(k, s, n, |s|);
  }

  /** The end of the type, and whether the type holds cases. */
  method FindKind(k: Classes, source: string, index: nat, name: nat) returns (kind: Result<nat>, cases: bool)
    requires index < name < |source| && source[index] == '{' && source[name] == ',' == source[index..][name - index]
    requires index + Find(source[index..], 1, ',', '}') == name
    ensures kind.Err? ==> ArgOut(k, source[index..]).Err?
    ensures kind.Ok? ==>
      && index < kind.value < |source| && source[kind.value] == source[index..][kind.value - index]
      && AsTyped(k, source[index..], kind.value - index, cases)
  {
    kind := FindEnd(source, index, name + 1);
    cases := false;
    if kind.Err? {
      NoKind(k, source[index..], name - index);
    } else {
      var word := source[name + 1..kind.value];
      cases := HoldsCases(k, word);
      KindRead(k, source[index..], name - index, kind.value - index, word);
    }
  }

  /** An argument with a type, after its name. */
  method WriteTyped(k: Classes, source: string, index: nat, name: nat) returns (r: Result<(string, nat)>)
    requires index < name < |source| && source[index] == '{' && source[name] == ',' == source[index..][name - index]
    requires index + Find(source[index..], 1, ',', '}') == name
    ensures Gives(source, ArgOut(k, source[index..]), r)
    ensures r.Ok? ==> index < r.value.1
    decreases |source| - index, 1
  {
    var kind, cases := FindKind(k, source, index, name);
    if kind.Err? {
      return Err;
    }
    r := WriteKind(k, source, index, kind.value, cases);
  }

  /** The same, after its type. */
  method WriteKind(k: Classes, source: string, index: nat, kind: nat, cases: bool) returns (r: Result<(string, nat)>)
    requires index < kind < |source| && source[index] == '{' && source[kind] == source[index..][kind - index]
    requires AsTyped(k, source[index..], kind - index, cases)
    ensures Gives(source, ArgOut(k, source[index..]), r)
    ensures r.Ok? ==> index < r.value.1
    decreases |source| - index, 0
  {
    if !cases {
      r := CopyArgument(k, source, index);
    } else if source[kind] == '}' {
      r := Err;
    } else {
      r := WriteChoice(k, source, index, kind + 1);
    }
  }

  /** An argument copied up to the brace that closes it. */
  method CopyArgument(k: Classes, source: string, index: nat) returns (r: Result<(string, nat)>)
    requires index < |source| && source[index] == '{' && Copied(k, source[index..])
    ensures Gives(source, ArgOut(k, source[index..]), r)
    ensures r.Ok? ==> index < r.value.1
  {
    var close := MatchingClose(source, index);
    ClosedInRest(source, index, close);
    if close.Err? {
      return Err;
    }
    CopiedGiven(k, source, index, close.value + 1);
    r := Ok((source[index..close.value + 1], close.value + 1));
  }

  /** A plural or select whose cases start at e. */
  method WriteChoice(k: Classes, source: string, index: nat, e: nat) returns (r: Result<(string, nat)>)
    requires index + 1 < e <= |source| && source[index] == '{'
    requires AsTyped(k, source[index..], e - 1 - index, true) && source[index..][e - 1 - index] != '}'
    ensures Gives(source, ArgOut(k, source[index..]), r)
    ensures r.Ok? ==> index < r.value.1
    decreases |source| - e, 7
  {
    var cases := WriteCases(k, source, e);
    ChoiceGiven(k, source, index, e, cases);
    r := if cases.Err? then Err else Ok((source[index..e] + cases.value.0, cases.value.1));
  }

  /** One round over the cases: broken, at their end, or past one more case. */
  datatype Round = Stop | Finish(text: string, end: nat) | GoOn(text: string, next: nat)

  predicate RoundOk(k: Classes, source: string, position: nat, round: Round)
    requires position <= |source|
  {
    match round
    case Stop => CasesOut(k, source[position..]).Err?
    case Finish(text, end) => position < end <= |source| && CasesOut(k, source[position..]) == Ok(Parsed(text, source[end..]))
    case GoOn(text, next) =>
      position < next <= |source| && CasesOut(k, source[position..]) == After(text, CasesOut(k, source[next..]))
  }

  /** Cases with no brace left, or with a key that is blank. */
  lemma CasesBreak(k: Classes, t: string, u: string)
    requires NoBraces(t) && (u == "" || (u[0] == '{' && Blank(k, t)) || (u[0] == '}' && !Blank(k, t)))
    ensures CasesOut(k, t + u).Err?
  {
    FirstBrace(t, u);
    assert (t + u)[..|t|] == t;
  }

  lemma CasesClose(k: Classes, t: string, u: string)
    requires NoBraces(t) && u != "" && u[0] == '}' && Blank(k, t)
    ensures CasesOut(k, t + u) == Ok(Parsed(t + ['}'], u[1..]))
  {
    FirstBrace(t, u);
    assert (t + u)[..|t|] == t && (t + u)[..|t| + 1] == t + ['}'] && (t + u)[|t| + 1..] == u[1..];
  }

  lemma StopsAt(k: Classes, source: string, start: nat, brace: nat)
    requires start <= brace <= |source| && NoBraces(source[start..brace])
    requires brace == |source| || (source[brace] == '{' && Blank(k, source[start..brace]))
             || (source[brace] == '}' && !Blank(k, source[start..brace]))
    ensures RoundOk(k, source, start, Stop)
  {
    SplitAt(source, start, brace);
    CasesBreak(k, source[start..brace], source[brace..]);
  }

  lemma FinishesAt(k: Classes, source: string, start: nat, brace: nat)
    requires start <= brace < |source| && NoBraces(source[start..brace])
    requires source[brace] == '}' && Blank(k, source[start..brace])
    ensures RoundOk(k, source, start, Finish(source[start..brace] + ['}'], brace + 1))
  {
    SplitAt(source, start, brace);
    CasesClose(k, source[start..brace], source[brace..]);
    assert source[brace..][1..] == source[brace + 1..];
  }

  lemma OneCase(k: Classes, source: string, start: nat, brace: nat, m: Result<Parsed<string>>)
    requires start <= brace < |source| && NoBraces(source[start..brace])
    requires source[brace] == '{' && !Blank(k, source[start..brace]) && m == MessageOut(k, source[brace + 1..], true)
    ensures m.Ok? ==> m.value.rest != ""
    ensures CasesOut(k, source[start..]) ==
            if m.Err? then Err
            else After((source[start..brace] + ['{']) + (m.value.value + ['}']), CasesOut(k, m.value.rest[1..]))
  {
    SplitAt(source, start, brace);
    CasesAtBrace(k, source[start..brace], source[brace + 1..]);
  }

  lemma OneCaseTo(k: Classes, source: string, start: nat, brace: nat, m: Result<Parsed<string>>, end: nat)
    requires start <= brace < |source| && NoBraces(source[start..brace]) && source[brace] == '{'
    requires !Blank(k, source[start..brace]) && m == MessageOut(k, source[brace + 1..], true)
    requires m.Ok? && end < |source| && m.value.rest == source[end..]
    ensures CasesOut(k, source[start..]) ==
            After((source[start..brace] + ['{']) + (m.value.value + ['}']), CasesOut(k, source[end + 1..]))
  {
    OneCase(k, source, start, brace, m);
    assert m.value.rest[1..] == source[end + 1..] by {
      SplitAt(source, end, end);
    }
  }

  lemma StopsIn(k: Classes, source: string, start: nat, brace: nat)
    requires start <= brace < |source| && NoBraces(source[start..brace]) && source[brace] == '{'
    requires !Blank(k, source[start..brace]) && MessageOut(k, source[brace + 1..], true).Err?
    ensures RoundOk(k, source, start, Stop)
  {
    OneCase(k, source, start, brace, MessageOut(k, source[brace + 1..], true));
  }

  lemma GoesOn(k: Classes, source: string, start: nat, brace: nat, text: string, end: nat)
    requires start <= brace < end < |source| && NoBraces(source[start..brace]) && source[brace] == '{'
    requires !Blank(k, source[start..brace])
    requires MessageOut(k, source[brace + 1..], true) == Ok(Parsed(text, source[end..]))
    ensures RoundOk(k, source, start, GoOn((source[start..brace] + ['{']) + (text + ['}']), end + 1))
  {
    OneCaseTo(k, source, start, brace, MessageOut(k, source[brace + 1..], true), end);
  }

  /** A case's message and its closing brace, after its key. */
  method WriteBody(k: Classes, source: string, position: nat, brace: nat) returns (r: Round)
    requires position <= brace < |source| && NoBraces(source[position..brace]) && source[brace] == '{'
    requires !Blank(k, source[position..brace])
    ensures RoundOk(k, source, position, r)
    decreases |source| - position, 4
  {
    var body := WriteMessage(k, source, brace + 1, true);
    BodyWritten(k, source, position, brace, body);
    r := if body.Err? then Stop else GoOn((source[position..brace] + ['{']) + (body.value.0 + ['}']), body.value.1 + 1);
  }

  lemma BodyWritten(k: Classes, source: string, position: nat, brace: nat, body: Result<(string, nat)>)
    requires position <= brace < |source| && NoBraces(source[position..brace]) && source[brace] == '{'
    requires !Blank(k, source[position..brace]) && Gives(source, MessageOut(k, source[brace + 1..], true), body)
    requires body.Ok? ==> brace < body.value.1 < |source|
    ensures RoundOk(k, source, position,
                    if body.Err? then Stop
                    else GoOn((source[position..brace] + ['{']) + (body.value.0 + ['}']), body.value.1 + 1))
  {
    GivesOk(source, MessageOut(k, source[brace + 1..], true), body);
    if body.Err? {
      StopsIn(k, source, position, brace);
    } else {
      GoesOn(k, source, position, brace, body.value.0, body.value.1);
    }
  }

  method WriteCase(k: Classes, source: string, position: nat) returns (r: Round)
    requires position <= |source|
    ensures RoundOk(k, source, position, r)
    decreases |source| - position, 5
  {
    var found := FindAny(source, position, '{', '}');
    var brace := if found.Ok? then found.value else |source|;
    assert NoBraces(source[position..brace]);
    if found.Err? || Blank(k, source[position..brace]) == (source[brace] == '{') {
      StopsAt(k, source, position, brace);
      return Stop;
    }
    if source[brace] == '}' {
      FinishesAt(k, source, position, brace);
      return Finish(source[position..brace] + ['}'], brace + 1);
    }
    r := WriteBody(k, source, position, brace);
  }

  method WriteCases(k: Classes, source: string, index: nat) returns (r: Result<(string, nat)>)
    requires index <= |source|
    ensures Gives(source, CasesOut(k, source[index..]), r)
    ensures r.Ok? ==> index < r.value.1
    decreases |source| - index, 6
  {
    var out, position := "", index;
    ghost var whole := CasesOut(k, source[index..]);
    AfterNothing(whole);
    while true
      invariant index <= position <= |source| && whole == After(out, CasesOut(k, source[position..]))
      decreases |source| - position
    {
      var round := WriteCase(k, source, position);
      match round {
        case Stop => return Err;
        case Finish(text, end) => return Ok((out + text, end));
        case GoOn(text, next) =>
          AfterTwice(out, text, CasesOut(k, source[next..]));
          out, position := out + text, next;
      }
    }
  }

  /** The transliteration of a message, or a refusal, as the parser sees it. */
  method TransliterateMessage(k: Classes, message: string) returns (r: Result<string>)
    ensures r == Transliterated(k, message)
  {
    assert message[0..] == message;
    var out :- WriteMessage(k, message, 0, false);
    r := Ok(out.0);
  }
}
