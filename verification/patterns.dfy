/**
  Placeholder patterns such as `/jobs?q={job_title}`: each `{name}` is replaced
  by the value of `name`, everything else is copied. The platform table
  documents its search URLs in this form.
 */
module Patterns {
  /** The position of the first `}` in `s`, or `|s|` when there is none. */
  function CloseAt(s: string): (j: nat)
    ensures j <= |s|
    ensures forall k :: 0 <= k < j ==> s[k] != '}'
    ensures j < |s| ==> s[j] == '}'
  {
    if |s| == 0 || s[0] == '}' then 0 else 1 + CloseAt(s[1..])
  }

  /** Fills every closed `{name}` of `pattern` with `vals(name)`; an unclosed `{` is copied as is. */
  function Fill(pattern: string, vals: string -> string): string
    decreases |pattern|
  {
    if |pattern| == 0 then ""
    else if pattern[0] == '{' && 1 + CloseAt(pattern[1..]) < |pattern| then
      var j := 1 + CloseAt(pattern[1..]);
      vals(pattern[1..j]) + Fill(pattern[j + 1..], vals)
    else [pattern[0]] + Fill(pattern[1..], vals)
  }

  /** Text without braces is copied unchanged. */
  lemma {:induction false} FillPlain(s: string, rest: string, vals: string -> string)
    requires forall k :: 0 <= k < |s| ==> s[k] != '{'
    ensures Fill(s + rest, vals) == s + Fill(rest, vals)
  {
    if |s| > 0 {
      assert (s + rest)[0] == s[0] && (s + rest)[1..] == s[1..] + rest;
      FillPlain(s[1..], rest, vals);
      assert s == [s[0]] + s[1..];
    } else {
      assert s + rest == rest;
    }
  }

  /** A closed placeholder is replaced by its value. */
  lemma FillHole(name: string, rest: string, vals: string -> string)
    requires forall k :: 0 <= k < |name| ==> name[k] != '}'
    ensures Fill("{" + name + "}" + rest, vals) == vals(name) + Fill(rest, vals)
  {
    var p := "{" + name + "}" + rest;
    assert p[1..] == name + "}" + rest;
    assert p[1..][|name|] == '}';
    var j := 1 + CloseAt(p[1..]);
    assert j == 1 + |name|;
    assert p[1..j] == name;
    assert p[j + 1..] == rest;
  }

  /** A pattern read as its pieces, front to back: literal text, or a placeholder by name. */
  datatype Template = End | Literal(text: string, rest: Template) | Hole(name: string, rest: Template)

  predicate BraceFree(s: string) {
    forall k :: 0 <= k < |s| ==> s[k] != '{' && s[k] != '}'
  }

  /** No piece holds a brace of its own. */
  predicate Plain(t: Template) {
    match t
    case End => true
    case Literal(s, rest) => BraceFree(s) && Plain(rest)
    case Hole(n, rest) => BraceFree(n) && Plain(rest)
  }

  /** The pattern string the pieces spell, placeholders written as `{name}`. */
  function Render(t: Template): string {
    match t
    case End => ""
    case Literal(s, rest) => s + Render(rest)
    case Hole(n, rest) => "{" + n + "}" + Render(rest)
  }

  /** The pieces with every placeholder replaced by its value. */
  function Eval(t: Template, vals: string -> string): string {
    match t
    case End => ""
    case Literal(s, rest) => s + Eval(rest, vals)
    case Hole(n, rest) => vals(n) + Eval(rest, vals)
  }

  /** Filling the rendered pattern gives the pieces' values. */
  lemma {:induction false} FillRender(t: Template, vals: string -> string)
    requires Plain(t)
    ensures Fill(Render(t), vals) == Eval(t, vals)
  {
    match t
    case End =>
    case Literal(s, rest) =>
      FillRender(rest, vals);
      FillPlain(s, Render(rest), vals);
    case Hole(n, rest) =>
      FillRender(rest, vals);
      FillHole(n, Render(rest), vals);
  }
}
