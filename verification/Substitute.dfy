/** Environment substitution (internal/config/substitute.go). The regular expression is written as a
    scanner; templates with a printer and an evaluator say what substitution means. */
module Substitute {
  import opened Prelude

  /** The groups of a match, and the length of the text it covers. */
  datatype Match = Match(name: string, default: Option<string>, length: nat)

  /** The first position at or after i whose character is among the stops, or the end. */
  function RunEnd(s: string, i: nat, stops: set<char>): (end: nat)
    requires i <= |s|
    ensures i <= end <= |s|
    ensures forall k | i <= k < end :: s[k] !in stops
    ensures end < |s| ==> s[end] in stops
    decreases |s| - i
  {
    if i == |s| || s[i] in stops then i else RunEnd(s, i + 1, stops)
  }

  /** The match of the pattern that starts at the head of s, if there is one: a dollar sign and an
      opening brace, a name without closing brace or colon, optionally a colon, a dash and a default
      without closing brace, and a closing brace. */
  function MatchHead(s: string): (m: Option<Match>)
    ensures m.Some? ==> 0 < m.value.length <= |s|
  {
    if |s| < 2 || s[0] != '$' || s[1] != '{' then None
    else
      var j := RunEnd(s, 2, {'}', ':'});
      if j == 2 || j == |s| then None
      else if s[j] == '}' then Some(Match(s[2..j], None, j + 1))
      else if j + 1 < |s| && s[j + 1] == '-' then
        var b := RunEnd(s, j + 2, {'}'});
        if b < |s| then Some(Match(s[2..j], Some(s[j + 2..b]), b + 1)) else None
      else None
  }

  /** Leftmost match: FindStringSubmatch. */
  function FindSubmatch(s: string): Option<Match> {
    match MatchHead(s)
    case Some(m) => Some(m)
    case None => if s == [] then None else FindSubmatch(s[1..])
  }

  /** The replacement callback, which matches the matched text once more to get at the groups. */
  function Replacement(matched: string, env: map<string, string>): string {
    match FindSubmatch(matched)
    case None => matched
    case Some(groups) =>
      if groups.name in env then env[groups.name]
      else if groups.default.Some? then groups.default.value
      else ""
  }

  /** ReplaceAllStringFunc: left to right, non-overlapping, replacements are not looked at again. */
  function SubstituteEnv(s: string, env: map<string, string>): string {
    match MatchHead(s)
    case Some(m) => Replacement(s[..m.length], env) + SubstituteEnv(s[m.length..], env)
    case None => if s == [] then [] else [s[0]] + SubstituteEnv(s[1..], env)
  }

  datatype Piece = Lit(text: string) | Ref(name: string, default: Option<string>)

  predicate IsRef(name: string, default: Option<string>) {
    && name != "" && (forall k | 0 <= k < |name| :: name[k] != '}' && name[k] != ':')
    && (default.Some? ==> forall k | 0 <= k < |default.value| :: default.value[k] != '}')
  }

  function RefText(name: string, default: Option<string>): string {
    match default
    case None => "${" + name + "}"
    case Some(d) => "${" + name + ":-" + d + "}"
  }

  function PieceText(p: Piece): string {
    match p
    case Lit(text) => text
    case Ref(name, default) => RefText(name, default)
  }

  function Print(t: seq<Piece>): string {
    if t == [] then "" else PieceText(t[0]) + Print(t[1..])
  }

  /** The value of a reference: a variable that is set, even to the empty string, beats the default. */
  function Lookup(name: string, default: Option<string>, env: map<string, string>): string {
    if name in env then env[name] else match default case Some(d) => d case None => ""
  }

  function Eval(t: seq<Piece>, env: map<string, string>): string {
    if t == [] then ""
    else
      (match t[0]
       case Lit(text) => text
       case Ref(name, default) => Lookup(name, default, env)) + Eval(t[1..], env)
  }

  lemma DefaultSound(s: string, j: nat)
    requires MatchHead(s).Some? && MatchHead(s).value.default.Some? && j == RunEnd(s, 2, {'}', ':'})
    ensures
      var m := MatchHead(s).value;
      && IsRef(m.name, m.default)
      && s[..m.length] == RefText(m.name, m.default)
  {
    var b := RunEnd(s, j + 2, {'}'});
    assert MatchHead(s).value == Match(s[2..j], Some(s[j + 2..b]), b + 1);
    assert s[..b + 1] == "${" + s[2..j] + ":-" + s[j + 2..b] + "}";
  }

  /** The scanner meets the pattern: a match at the head is the text of a reference. */
  lemma MatchSound(s: string)
    requires MatchHead(s).Some?
    ensures
      var m := MatchHead(s).value;
      && IsRef(m.name, m.default)
      && s[..m.length] == RefText(m.name, m.default)
  {
    var m := MatchHead(s).value;
    var j := RunEnd(s, 2, {'}', ':'});
    assert s[..j] == "${" + s[2..j];
    if m.default.None? {
      assert m == Match(s[2..j], None, j + 1);
      assert s[..j + 1] == s[..j] + "}";
    } else {
      DefaultSound(s, j);
    }
  }

  lemma RunEndIs(s: string, i: nat, stops: set<char>, end: nat)
    requires i <= end < |s| && s[end] in stops && forall k | i <= k < end :: s[k] !in stops
    ensures RunEnd(s, i, stops) == end
  {
    var e := RunEnd(s, i, stops);
  }

  /** And conversely: any text that starts with a reference is matched as that reference. */
  lemma MatchComplete(name: string, default: Option<string>, rest: string)
    requires IsRef(name, default)
    ensures MatchHead(RefText(name, default) + rest) == Some(Match(name, default, |RefText(name, default)|))
  {
    var s := RefText(name, default) + rest;
    var j := 2 + |name|;
    assert s[2..j] == name;
    assert forall k | 2 <= k < j :: s[k] == name[k - 2];
    RunEndIs(s, 2, {'}', ':'}, j);
    if default.Some? {
      var d := default.value;
      var b := j + 2 + |d|;
      assert s[j + 2..b] == d;
      assert forall k | j + 2 <= k < b :: s[k] == d[k - j - 2];
      RunEndIs(s, j + 2, {'}'}, b);
    }
  }

  /** Matching the matched text again yields the same groups, so the callback sees this reference. */
  lemma RematchIsSame(s: string, env: map<string, string>)
    requires MatchHead(s).Some?
    ensures
      var m := MatchHead(s).value;
      && FindSubmatch(s[..m.length]) == Some(m)
      && Replacement(s[..m.length], env) == Lookup(m.name, m.default, env)
  {
    MatchSound(s);
    var m := MatchHead(s).value;
    MatchComplete(m.name, m.default, "");
    assert RefText(m.name, m.default) + "" == s[..m.length];
  }

  /** Substitution on a text that starts with a reference. */
  lemma SubstituteRef(name: string, default: Option<string>, rest: string, env: map<string, string>)
    requires IsRef(name, default)
    ensures SubstituteEnv(RefText(name, default) + rest, env) == Lookup(name, default, env) + SubstituteEnv(rest, env)
  {
    var s := RefText(name, default) + rest;
    MatchComplete(name, default, rest);
    RematchIsSame(s, env);
    assert s[|RefText(name, default)|..] == rest;
  }

  /** Precedence, on texts: for a name without closing brace or colon, and a default without closing brace,
      a variable that is set, even to the empty string, gives its value; an unset one gives the default
      if there is one, and nothing otherwise. What follows is substituted as if it stood alone. */
  lemma SetVariableWins(name: string, default: string, rest: string, env: map<string, string>)
    requires name != "" && '}' !in name && ':' !in name && '}' !in default
    ensures name in env ==> SubstituteEnv("${" + name + "}" + rest, env) == env[name] + SubstituteEnv(rest, env)
    ensures name in env ==> SubstituteEnv("${" + name + ":-" + default + "}" + rest, env) == env[name] + SubstituteEnv(rest, env)
    ensures name !in env ==> SubstituteEnv("${" + name + "}" + rest, env) == SubstituteEnv(rest, env)
    ensures name !in env ==> SubstituteEnv("${" + name + ":-" + default + "}" + rest, env) == default + SubstituteEnv(rest, env)
  {
    SubstituteRef(name, None, rest, env);
    SubstituteRef(name, Some(default), rest, env);
    assert "" + SubstituteEnv(rest, env) == SubstituteEnv(rest, env);
  }

  /** No reference can start in this literal. */
  predicate PlainText(text: string) {
    forall k | 0 <= k < |text| - 1 :: !(text[k] == '$' && text[k + 1] == '{')
  }

  lemma NoMatchInLiteral(text: string, rest: string)
    requires PlainText(text) && text != "" && (rest == "" || rest[0] == '$')
    ensures MatchHead(text + rest).None?
  {
    var s := text + rest;
    if |text| > 1 {
      var k := 0;
      assert !(text[k] == '$' && text[k + 1] == '{');
      assert s[0] == text[0] && s[1] == text[1];
    }
  }

  lemma CopyChar(c: char, s: string, env: map<string, string>)
    requires MatchHead([c] + s).None?
    ensures SubstituteEnv([c] + s, env) == [c] + SubstituteEnv(s, env)
    ensures Parse([c] + s) == Prepend(c, Parse(s))
  {
    assert ([c] + s)[1..] == s;
  }

  lemma Associate(a: string, b: string, c: string)
    ensures a + b + c == a + (b + c)
  {}

  /** Substitution copies a literal, up to the end or the next reference. */
  lemma {:induction false} SubstituteLit(text: string, rest: string, env: map<string, string>)
    requires PlainText(text) && (rest == "" || rest[0] == '$')
    ensures SubstituteEnv(text + rest, env) == text + SubstituteEnv(rest, env)
  {
    if text == "" {
      assert text + rest == rest;
    } else {
      var c, tail := text[0], text[1..];
      NoMatchInLiteral(text, rest);
      assert text == [c] + tail;
      Associate([c], tail, rest);
      CopyChar(c, tail + rest, env);
      SubstituteLit(tail, rest, env);
      Associate([c], tail, SubstituteEnv(rest, env));
    }
  }

  /** Templates of references and plain literals, no two literals side by side. */
  ghost predicate WellFormed(t: seq<Piece>) {
    && (forall i | 0 <= i < |t| ::
          match t[i]
          case Lit(text) => PlainText(text)
          case Ref(name, default) => IsRef(name, default))
    && (forall i | 0 <= i < |t| - 1 :: t[i].Lit? ==> t[i + 1].Ref?)
  }

  lemma PrintStartsWithDollar(t: seq<Piece>)
    requires t == [] || t[0].Ref?
    ensures Print(t) == "" || Print(t)[0] == '$'
  {}

  /** Round trip: substituting the printed form of a template evaluates the template, for every
      environment; inserted values, whatever they look like, are never scanned again. */
  lemma {:induction false} SubstitutionEvaluates(t: seq<Piece>, env: map<string, string>)
    requires WellFormed(t)
    ensures SubstituteEnv(Print(t), env) == Eval(t, env)
  {
    if t != [] {
      SubstitutionEvaluates(t[1..], env);
      match t[0]
      case Lit(text) =>
        PrintStartsWithDollar(t[1..]);
        SubstituteLit(text, Print(t[1..]), env);
      case Ref(name, default) =>
        SubstituteRef(name, default, Print(t[1..]), env);
    }
  }

  /** The template a text stands for: references where the pattern matches, literals in between. */
  function Parse(s: string): seq<Piece> {
    match MatchHead(s)
    case Some(m) => [Ref(m.name, m.default)] + Parse(s[m.length..])
    case None => if s == [] then [] else Prepend(s[0], Parse(s[1..]))
  }

  function Prepend(c: char, t: seq<Piece>): seq<Piece> {
    if t != [] && t[0].Lit? then [Lit([c] + t[0].text)] + t[1..] else [Lit([c])] + t
  }

  lemma PrependPrints(c: char, t: seq<Piece>)
    ensures Print(Prepend(c, t)) == [c] + Print(t)
  {
    if t != [] && t[0].Lit? {
      assert Prepend(c, t)[1..] == t[1..];
      Associate([c], t[0].text, Print(t[1..]));
    } else {
      assert Prepend(c, t)[1..] == t;
    }
  }

  lemma PrependEvaluates(c: char, t: seq<Piece>, env: map<string, string>)
    ensures Eval(Prepend(c, t), env) == [c] + Eval(t, env)
  {
    if t != [] && t[0].Lit? {
      assert Prepend(c, t)[1..] == t[1..];
      Associate([c], t[0].text, Eval(t[1..], env));
    } else {
      assert Prepend(c, t)[1..] == t;
    }
  }

  /** Every text is the print of its template ... */
  lemma {:induction false} EveryTextIsATemplate(s: string)
    ensures Print(Parse(s)) == s
    decreases |s|
  {
    if MatchHead(s).Some? {
      var m := MatchHead(s).value;
      MatchSound(s);
      EveryTextIsATemplate(s[m.length..]);
      assert Parse(s)[1..] == Parse(s[m.length..]);
      assert s == s[..m.length] + s[m.length..];
    } else if s != [] {
      EveryTextIsATemplate(s[1..]);
      PrependPrints(s[0], Parse(s[1..]));
      assert s == [s[0]] + s[1..];
    }
  }

  /** ... and substitution evaluates that template: there is no text on which it does anything else. */
  lemma {:induction false} SubstitutionEvaluatesEveryText(s: string, env: map<string, string>)
    ensures SubstituteEnv(s, env) == Eval(Parse(s), env)
    decreases |s|
  {
    if MatchHead(s).Some? {
      var m := MatchHead(s).value;
      RematchIsSame(s, env);
      SubstitutionEvaluatesEveryText(s[m.length..], env);
      assert Parse(s)[1..] == Parse(s[m.length..]);
    } else if s != [] {
      SubstitutionEvaluatesEveryText(s[1..], env);
      PrependEvaluates(s[0], Parse(s[1..]), env);
    }
  }

  /** Reading back a printed template gives the same template, when its literals are not empty. */
  lemma {:induction false} ParsePrint(t: seq<Piece>)
    requires WellFormed(t) && forall i | 0 <= i < |t| :: t[i].Lit? ==> t[i].text != ""
    ensures Parse(Print(t)) == t
  {
    if t != [] {
      ParsePrint(t[1..]);
      assert t == [t[0]] + t[1..];
      match t[0]
      case Lit(text) =>
        PrintStartsWithDollar(t[1..]);
        ParseLit(text, t[1..]);
      case Ref(name, default) =>
        MatchComplete(name, default, Print(t[1..]));
        assert Print(t)[|RefText(name, default)|..] == Print(t[1..]);
    }
  }

  lemma {:induction false} ParseLit(text: string, rest: seq<Piece>)
    requires PlainText(text) && text != "" && (rest == [] || rest[0].Ref?)
    requires Print(rest) == "" || Print(rest)[0] == '$'
    requires Parse(Print(rest)) == rest
    ensures Parse(text + Print(rest)) == [Lit(text)] + rest
  {
    var c, tail := text[0], text[1..];
    NoMatchInLiteral(text, Print(rest));
    assert text == [c] + tail;
    Associate([c], tail, Print(rest));
    CopyChar(c, tail + Print(rest), map[]);
    if tail == "" {
      assert tail + Print(rest) == Print(rest);
    } else {
      ParseLit(tail, rest);
    }
  }
}
