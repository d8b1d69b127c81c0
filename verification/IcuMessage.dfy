/**
 ICU messages: text, arguments, and plural or select arguments whose cases hold
 messages. The parser is total on what the original accepts; a message's parts
 are kept so that transliteration can be said to change text and nothing else.
 */
module IcuMessage {
  import opened Braces
  import opened Transliteration

  datatype Result<+T> = Ok(value: T) | Err {
    predicate IsFailure() { Err? }
    function PropagateFailure<U>(): Result<U>
      requires Err?
    {
      Err
    }
    function Extract(): T
      requires Ok?
    {
      value
    }
  }

  // Parts of a message, each with the exact text it stands for

  datatype Message = End(text: string) | Then(text: string, arg: Arg, rest: Message)
  /** `{name}`, a typed argument that is copied whole, or a plural or select. */
  datatype Arg = Named(name: string) | Typed(name: string, kind: string, rest: string)
               | Choice(name: string, kind: string, cases: Cases)
  datatype Cases = Done(tail: string) | Case(key: string, body: Message, more: Cases)

  function ShowMessage(m: Message): string {
    match m
    case End(text) => text
    case Then(text, arg, rest) => text + (ShowArg(arg) + ShowMessage(rest))
  }

  /** Up to the end of the type. */
  function Head(name: string, kind: string): string { ['{'] + (name + ([','] + kind)) }

  function ShowArg(a: Arg): string {
    match a
    case Named(name) => ['{'] + (name + ['}'])
    case Typed(name, kind, rest) => Head(name, kind) + rest
    case Choice(name, kind, cases) => Head(name, kind) + ([','] + ShowCases(cases))
  }

  function ShowCases(c: Cases): string {
    match c
    case Done(tail) => tail
    case Case(key, body, more) => key + (ShowMessage(body) + (['}'] + ShowCases(more)))
  }

  /** The same message with its texts transliterated. */
  function LatinMessage(k: Classes, m: Message): Message {
    match m
    case End(text) => End(TransliterateText(k, text))
    case Then(text, arg, rest) => Then(TransliterateText(k, text), LatinArg(k, arg), LatinMessage(k, rest))
  }

  function LatinArg(k: Classes, a: Arg): Arg {
    match a
    case Named(_) => a
    case Typed(_, _, _) => a
    case Choice(name, kind, cases) => Choice(name, kind, LatinCases(k, cases))
  }

  function LatinCases(k: Classes, c: Cases): Cases {
    match c
    case Done(tail) => c
    case Case(key, body, more) => Case(key, LatinMessage(k, body), LatinCases(k, more))
  }

  // Finding characters

  /** The first place from i on that holds one of two characters. */
  function Find(s: string, i: nat, a: char, b: char): (r: nat)
    requires i <= |s|
    ensures i <= r <= |s|
    ensures r < |s| ==> s[r] == a || s[r] == b
    ensures forall j | i <= j < r :: s[j] != a && s[j] != b
    decreases |s| - i
  {
    if i == |s| || s[i] == a || s[i] == b then i else Find(s, i + 1, a, b)
  }

  /** The first place from i on that is not white space. */
  function Lead(k: Classes, s: string, i: nat): (r: nat)
    requires i <= |s|
    ensures i <= r <= |s|
    decreases |s| - i
  {
    if i < |s| && s[i] in k.space then Lead(k, s, i + 1) else i
  }

  /** The last place down to lo that follows something else. */
  function Trail(k: Classes, s: string, lo: nat, hi: nat): (r: nat)
    requires lo <= hi <= |s|
    ensures lo <= r <= hi
    decreases hi - lo
  {
    if lo < hi && s[hi - 1] in k.space then Trail(k, s, lo, hi - 1) else hi
  }

  function Strip(k: Classes, s: string): string {
    var lo := Lead(k, s, 0);
    s[lo..Trail(k, s, lo, |s|)]
  }

  predicate Blank(k: Classes, s: string) { Lead(k, s, 0) == |s| }

  predicate HoldsCases(k: Classes, s: string) { Strip(k, s) in k.keywords }

  // Parsing off the front of a string

  datatype Parsed<+T> = Parsed(value: T, rest: string)

  function ParseMessage(k: Classes, s: string, nested: bool): (r: Result<Parsed<Message>>)
    ensures r.Ok? ==> |r.value.rest| <= |s|
    ensures r.Ok? && nested ==> r.value.rest != "" && r.value.rest[0] == '}'
    ensures r.Ok? && !nested ==> r.value.rest == ""
    decreases |s|, 1
  {
    var i := Find(s, 0, '{', '}');
    if i == |s| then if nested then Err else Ok(Parsed(End(s), ""))
    else if s[i] == '}' then if nested then Ok(Parsed(End(s[..i]), s[i..])) else Err
    else
      var arg :- ParseArg(k, s[i..]);
      var rest :- ParseMessage(k, arg.rest, nested);
      Ok(Parsed(Then(s[..i], arg.value, rest.value), rest.rest))
  }

  /** s starts with the argument's brace. */
  function ParseArg(k: Classes, s: string): (r: Result<Parsed<Arg>>)
    requires s != "" && s[0] == '{'
    ensures r.Ok? ==> |r.value.rest| < |s|
    decreases |s|, 0
  {
    var n := Find(s, 1, ',', '}');
    if n == |s| then Err
    else if s[n] == '}' then Ok(Parsed(Named(s[1..n]), s[n + 1..]))
    else
      var t := Find(s, n + 1, ',', '}');
      if t == |s| then Err
      else if !HoldsCases(k, s[n + 1..t]) then
        var c := Close(s, 0, 0);
        if c == |s| then Err else Ok(Parsed(Typed(s[1..n], s[n + 1..t], s[t..c + 1]), s[c + 1..]))
      else if s[t] == '}' then Err
      else
        var cases :- ParseCases(k, s[t + 1..]);
        Ok(Parsed(Choice(s[1..n], s[n + 1..t], cases.value), cases.rest))
  }

  function ParseCases(k: Classes, s: string): (r: Result<Parsed<Cases>>)
    ensures r.Ok? ==> |r.value.rest| < |s|
    decreases |s|, 2
  {
    var o := Find(s, 0, '{', '}');
    if o == |s| then Err
    else if s[o] == '}' then if !Blank(k, s[..o]) then Err else Ok(Parsed(Done(s[..o + 1]), s[o + 1..]))
    else if Blank(k, s[..o]) then Err
    else
      var body :- ParseMessage(k, s[o + 1..], true);
      var more :- ParseCases(k, body.rest[1..]);
      Ok(Parsed(Case(s[..o + 1], body.value, more.value), more.rest))
  }
}
