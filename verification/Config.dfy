/** Expansion of `${NAME}` in the configuration text (crates/common/src/config.rs:145-175). */
module Config {
  import opened Wrappers

  datatype ExpandError = Unclosed | MissingVar(name: string)

  type Env = map<string, string>

  // ------------------------------------------------------------------------
  // `str::find`
  // ------------------------------------------------------------------------

  predicate OpensAt(s: string, i: nat) { i + 1 < |s| && s[i] == '$' && s[i + 1] == '{' }

  function FindOpen(s: string): (r: Option<nat>)
    ensures r.Some? ==> OpensAt(s, r.value) && forall j: nat :: j < r.value ==> !OpensAt(s, j)
    ensures r.None? ==> forall j: nat :: !OpensAt(s, j)
  {
    if |s| < 2 then None
    else if OpensAt(s, 0) then Some(0)
    else
      assert forall j: nat :: j > 0 ==> OpensAt(s, j) == OpensAt(s[1..], j - 1);
      var r := FindOpen(s[1..]);
      if r.None? then None else Some(r.value + 1)
  }

  function FindClose(s: string): (r: Option<nat>)
    ensures r.Some? ==> r.value < |s| && s[r.value] == '}' && forall j :: 0 <= j < r.value ==> s[j] != '}'
    ensures r.None? ==> '}' !in s
  {
    if s == [] then None
    else if s[0] == '}' then Some(0)
    else
      var r := FindClose(s[1..]);
      if r.None? then None else Some(r.value + 1)
  }

  // ------------------------------------------------------------------------
  // Templates
  // ------------------------------------------------------------------------

  /** A text as literals and variables; it may end in a `${` that is never closed. */
  datatype Template =
    | Literal(text: string)
    | Variable(text: string, name: string, rest: Template)
    | Open(text: string, tail: string)

  function Render(t: Template): string {
    match t
    case Literal(text) => text
    case Variable(text, name, rest) => text + "${" + name + "}" + Render(rest)
    case Open(text, tail) => text + "${" + tail
  }

  /** Substitution, left to right; the first open or unset variable is the error. */
  function Substitute(t: Template, env: Env): Result<string, ExpandError> {
    match t
    case Literal(text) => Ok(text)
    case Open(_, _) => Err(Unclosed)
    case Variable(text, name, rest) =>
      if name !in env then Err(MissingVar(name)) else Prepend(text + env[name], Substitute(rest, env))
  }

  function Prepend(prefix: string, r: Result<string, ExpandError>): Result<string, ExpandError> {
    if r.Ok? then Ok(prefix + r.value) else r
  }

  predicate NoOpen(s: string) { FindOpen(s).None? }

  /** No literal holds a `${`, no name a `}`. */
  predicate Proper(t: Template) {
    match t
    case Literal(text) => NoOpen(text)
    case Variable(text, name, rest) => NoOpen(text) && '}' !in name && Proper(rest)
    case Open(text, tail) => NoOpen(text) && '}' !in tail
  }

  function Parse(s: string): Template
    decreases |s|
  {
    var start := FindOpen(s);
    if start.None? then Literal(s)
    else
      var after := s[start.value + 2..];
      var end := FindClose(after);
      if end.None? then Open(s[..start.value], after)
      else Variable(s[..start.value], after[..end.value], Parse(after[end.value + 1..]))
  }

  /** Every text is the rendering of one proper template, its parse. */
  lemma {:induction false} RenderParse(s: string)
    ensures Render(Parse(s)) == s && Proper(Parse(s))
    decreases |s|
  {
    hide NoOpen, FindOpen, FindClose;
    var start := FindOpen(s);
    if start.None? {
      assert NoOpen(s) by {
        NothingOpens(s);
      }
    } else {
      var at := start.value;
      var after := s[at + 2..];
      BeforeOpen(s, at);
      CutAtOpen(s, at);
      var end := FindClose(after);
      if end.Some? {
        RenderParse(after[end.value + 1..]);
        CutAtClose(after, end.value);
        Joined(s[..at], after[..end.value], after[end.value + 1..]);
      }
    }
  }

  lemma NothingOpens(s: string)
    requires FindOpen(s).None?
    ensures NoOpen(s)
  {
  }

  lemma CutAtOpen(s: string, at: nat)
    requires OpensAt(s, at)
    ensures s == s[..at] + "${" + s[at + 2..]
  {
  }

  lemma CutAtClose(s: string, at: nat)
    requires at < |s| && s[at] == '}'
    ensures s == s[..at] + "}" + s[at + 1..]
  {
  }

  lemma Joined(text: string, name: string, tail: string)
    ensures text + "${" + name + "}" + tail == text + "${" + (name + "}" + tail)
  {
  }

  lemma BeforeOpen(s: string, at: nat)
    requires FindOpen(s) == Some(at)
    ensures NoOpen(s[..at])
  {
    assert forall j: nat :: OpensAt(s[..at], j) ==> OpensAt(s, j) && j < at;
  }

  /** The first `${` of a proper text is the one that follows its literal. */
  lemma OpenFollowsText(text: string, tail: string)
    requires NoOpen(text)
    ensures FindOpen(text + "${" + tail) == Some(|text|)
  {
    var s := text + "${" + tail;
    assert OpensAt(s, |text|);
    forall j: nat | j < |text| ensures !OpensAt(s, j) {
      assert !OpensAt(text, j);
    }
  }

  lemma CloseFollowsName(name: string, tail: string)
    requires '}' !in name
    ensures FindClose(name + "}" + tail) == Some(|name|)
  {
    var s := name + "}" + tail;
    assert s[|name|] == '}';
    forall j | 0 <= j < |name| ensures s[j] != '}' {
      assert s[j] == name[j];
    }
  }

  lemma {:induction false} ParseRender(t: Template)
    requires Proper(t)
    ensures Parse(Render(t)) == t
  {
    hide NoOpen, FindOpen, FindClose, OpensAt;
    match t
    case Literal(text) => assert FindOpen(text).None? by { TextNeverOpens(text); }
    case Open(text, tail) => ParseOpen(text, tail);
    case Variable(text, name, rest) =>
      ParseRender(rest);
      Joined(text, name, Render(rest));
      ParseVariable(text, name, Render(rest));
  }

  lemma TextNeverOpens(text: string)
    requires NoOpen(text)
    ensures FindOpen(text).None?
  {
  }

  lemma ParseOpen(text: string, tail: string)
    requires NoOpen(text) && '}' !in tail
    ensures Parse(text + "${" + tail) == Open(text, tail)
  {
    hide NoOpen, OpensAt;
    var s := text + "${" + tail;
    OpenFollowsText(text, tail);
    assert s[|text| + 2..] == tail && s[..|text|] == text;
  }

  lemma ParseVariable(text: string, name: string, tail: string)
    requires NoOpen(text) && '}' !in name
    ensures Parse(text + "${" + (name + "}" + tail)) == Variable(text, name, Parse(tail))
  {
    hide NoOpen, OpensAt;
    var after := name + "}" + tail;
    var s := text + "${" + after;
    OpenFollowsText(text, after);
    assert s[|text| + 2..] == after && s[..|text|] == text;
    CloseFollowsName(name, tail);
    assert after[..|name|] == name && after[|name| + 1..] == tail;
  }

  // ------------------------------------------------------------------------
  // The expander
  // ------------------------------------------------------------------------

  /** Expanding a text is substituting in its template: values are never scanned again. */
  method ExpandEnvVars(input: string, env: Env) returns (r: Result<string, ExpandError>)
    ensures r == Substitute(Parse(input), env)
  {
    hide FindOpen, FindClose, Substitute, Prepend;
    var result := "";
    var remaining := input;
    PrependNothing(Substitute(Parse(input), env));
    var start := FindOpen(remaining);
    while start.Some?
      invariant start == FindOpen(remaining)
      invariant Substitute(Parse(input), env) == Prepend(result, Substitute(Parse(remaining), env))
      decreases |remaining|
    {
      ghost var before, done := remaining, result;
      var text := remaining[..start.value];
      result := result + text;
      remaining := remaining[start.value + 2..];
      var end := FindClose(remaining);
      if end.None? {
        assert Parse(before) == Open(text, remaining);
        SubstituteOpen(done, text, remaining, env);
        return Err(Unclosed);
      }
      var name := remaining[..end.value];
      assert Parse(before) == Variable(text, name, Parse(remaining[end.value + 1..]));
      SubstituteVariable(done, text, name, Parse(remaining[end.value + 1..]), env);
      if name !in env {
        return Err(MissingVar(name));
      }
      var value := env[name];
      result := result + value;
      remaining := remaining[end.value + 1..];
      start := FindOpen(remaining);
    }
    SubstituteLiteral(result, remaining, env);
    result := result + remaining;
    return Ok(result);
  }

  lemma PrependNothing(r: Result<string, ExpandError>)
    ensures Prepend("", r) == r
  {
    assert r.Ok? ==> "" + r.value == r.value;
  }

  lemma SubstituteLiteral(prefix: string, text: string, env: Env)
    ensures Prepend(prefix, Substitute(Literal(text), env)) == Ok(prefix + text)
  {
  }

  lemma SubstituteOpen(prefix: string, text: string, tail: string, env: Env)
    ensures Prepend(prefix, Substitute(Open(text, tail), env)) == Err(Unclosed)
  {
  }

  lemma SubstituteVariable(prefix: string, text: string, name: string, rest: Template, env: Env)
    ensures Prepend(prefix, Substitute(Variable(text, name, rest), env))
         == if name !in env then Err(MissingVar(name)) else Prepend(prefix + text + env[name], Substitute(rest, env))
  {
    if name in env && Substitute(rest, env).Ok? {
      var tail := Substitute(rest, env).value;
      assert prefix + (text + env[name] + tail) == prefix + text + env[name] + tail;
    }
  }

  /** So expanding the rendering of any proper template is substituting in it directly. */
  lemma ExpansionIsSubstitution(t: Template, env: Env)
    requires Proper(t)
    ensures Substitute(Parse(Render(t)), env) == Substitute(t, env)
  {
    ParseRender(t);
  }

  /** Expansion told on texts: a variable is replaced by its value, and the rest is expanded alike. */
  lemma ExpandsAs(text: string, name: string, tail: string, env: Env)
    requires NoOpen(text) && '}' !in name
    ensures Substitute(Parse(text), env) == Ok(text)
    ensures '}' !in tail ==> Substitute(Parse(text + "${" + tail), env) == Err(Unclosed)
    ensures var all, rest := Substitute(Parse(text + "${" + (name + "}" + tail)), env), Substitute(Parse(tail), env);
      if name !in env then all == Err(MissingVar(name))
      else if rest.Ok? then all == Ok(text + env[name] + rest.value)
      else all == rest
  {
    hide NoOpen, FindClose, OpensAt;
    assert FindOpen(text).None? by {
      TextNeverOpens(text);
    }
    if '}' !in tail {
      ParseOpen(text, tail);
    }
    ParseVariable(text, name, tail);
  }

  /** The variables of a template, left to right. */
  function Names(t: Template): seq<string> {
    if t.Variable? then [t.name] + Names(t.rest) else []
  }

  predicate Closed(t: Template) { t.Literal? || (t.Variable? && Closed(t.rest)) }

  /**
    Expansion succeeds iff every variable is set and none is open; otherwise the
    error is the first unset variable, or the open one if all before it are set.
   */
  lemma {:induction false} ErrorIsFirst(t: Template, env: Env)
    ensures Substitute(t, env).Ok? <==> Closed(t) && forall n :: n in Names(t) ==> n in env
    ensures Substitute(t, env) == Err(Unclosed) <==> !Closed(t) && forall n :: n in Names(t) ==> n in env
    ensures Substitute(t, env).Err? && Substitute(t, env).error.MissingVar? ==>
              var name := Substitute(t, env).error.name;
              && name !in env
              && exists k :: 0 <= k < |Names(t)| && Names(t)[k] == name
                        && forall j :: 0 <= j < k ==> Names(t)[j] in env
  {
    if t.Variable? {
      ErrorIsFirst(t.rest, env);
      assert forall n :: n in Names(t) <==> n == t.name || n in Names(t.rest);
      if t.name !in env {
        assert Names(t)[0] == t.name;
      } else if Substitute(t, env).Err? && Substitute(t, env).error.MissingVar? {
        var name := Substitute(t, env).error.name;
        var k :| 0 <= k < |Names(t.rest)| && Names(t.rest)[k] == name
             && forall j :: 0 <= j < k ==> Names(t.rest)[j] in env;
        assert Names(t)[k + 1] == name;
        assert forall j :: 0 < j < k + 1 ==> Names(t)[j] == Names(t.rest)[j - 1];
      }
    }
  }
}
