/** `shellQuote` and the script that `export` prints, with their meaning under the shell. */
module Export {
  import opened Wrappers
  import opened VaultData
  import opened Format
  import opened Shell
  import opened Text

  const ESCAPED_QUOTE := "'\\''"

  function QuoteBody(v: string): string {
    if v == "" then "" else (if v[0] == '\'' then ESCAPED_QUOTE else [v[0]]) + QuoteBody(v[1..])
  }

  /** The quoted form of a value without NUL. */
  function Quote(v: string): string {
    "'" + QuoteBody(v) + "'"
  }

  lemma {:induction false} QuoteBodySnoc(v: string, c: char)
    ensures QuoteBody(v + [c]) == QuoteBody(v) + (if c == '\'' then ESCAPED_QUOTE else [c])
  {
    if v == "" {
      assert v + [c] == [c];
      assert QuoteBody([c][1..]) == "";
    } else {
      assert (v + [c])[1..] == v[1..] + [c];
      QuoteBodySnoc(v[1..], c);
    }
  }

  method ShellQuote(v: string) returns (r: Result<string, FormatError>)
    ensures NUL in v ==> r == Err(HasNUL)
    ensures NUL !in v ==> r == Ok(Quote(v))
  {
    if NUL in v {
      return Err(HasNUL);
    }
    var sb := "'";
    for i := 0 to |v|
      invariant sb == "'" + QuoteBody(v[..i])
    {
      QuoteBodySnoc(v[..i], v[i]);
      assert v[..i] + [v[i]] == v[..i + 1];
      if v[i] == '\'' {
        sb := sb + ESCAPED_QUOTE;
      } else {
        sb := sb + [v[i]];
      }
    }
    assert v[..|v|] == v;
    return Ok(sb + "'");
  }

  function QuoteCount(v: string): nat {
    if v == "" then 0 else (if v[0] == '\'' then 1 else 0) + QuoteCount(v[1..])
  }

  lemma {:induction false} QuoteLength(v: string)
    ensures |Quote(v)| == |v| + 2 + 3 * QuoteCount(v)
  {
    if v != "" {
      QuoteLength(v[1..]);
    }
  }

  // ---------------------------------------------------------------- the reference inverse

  /** The tests' `unquote`, from position i of the quoted text q on. */
  function UnquoteFrom(q: string, i: nat): Option<string>
    requires |q| >= 2
    decreases |q| - i
  {
    if i >= |q| - 1 then Some("")
    else if q[i] != '\'' then
      match UnquoteFrom(q, i + 1)
      case Some(rest) => Some([q[i]] + rest)
      case None => None
    else if ESCAPED_QUOTE <= q[i..] then
      match UnquoteFrom(q, i + 4)
      case Some(rest) => Some("'" + rest)
      case None => None
    else None
  }

  function Unquote(q: string): Option<string> {
    if |q| < 2 || q[0] != '\'' || q[|q| - 1] != '\'' then None else UnquoteFrom(q, 1)
  }

  lemma {:induction false} UnquoteBody(pre: string, v: string)
    ensures UnquoteFrom("'" + pre + QuoteBody(v) + "'", 1 + |pre|) == Some(v)
    decreases |v|
  {
    var q := "'" + pre + QuoteBody(v) + "'";
    if v != "" {
      var piece := if v[0] == '\'' then ESCAPED_QUOTE else [v[0]];
      assert q == "'" + (pre + piece) + QuoteBody(v[1..]) + "'";
      UnquoteBody(pre + piece, v[1..]);
      assert q[1 + |pre|..] == piece + QuoteBody(v[1..]) + "'";
      assert q[1 + |pre|] == piece[0];
      assert v == [v[0]] + v[1..];
      if v[0] == '\'' {
        assert ESCAPED_QUOTE <= q[1 + |pre|..];
      }
    }
  }

  lemma UnquoteQuote(v: string)
    ensures Unquote(Quote(v)) == Some(v)
  {
    UnquoteBody("", v);
    assert "'" + "" + QuoteBody(v) + "'" == Quote(v);
  }

  lemma QuoteInjective(v: string, w: string)
    requires Quote(v) == Quote(w)
    ensures v == w
  {
    UnquoteQuote(v);
    UnquoteQuote(w);
  }

  // ---------------------------------------------------------------- what the shell reads

  lemma {:induction false} LexQuoteBody(l: Lexer, v: string)
    requires l.mode == Quoted && l.inWord && NUL !in v
    ensures Lex(l, QuoteBody(v)) == Some(l.(word := l.word + v))
    decreases |v|
  {
    if v == "" {
      assert l.word + v == l.word;
    } else {
      var l' := Append(l, v[0]);
      assert l'.word + v[1..] == l.word + v;
      LexQuoteBody(l', v[1..]);
      if v[0] == '\'' {
        LexConcat(l, ESCAPED_QUOTE, QuoteBody(v[1..]));
        LexFour(l, '\'', '\\', '\'', '\'');
      } else {
        assert ([v[0]] + QuoteBody(v[1..]))[1..] == QuoteBody(v[1..]);
      }
    }
  }

  lemma LexOne(l: Lexer, c: char)
    ensures Lex(l, [c]) == LexChar(l, c)
  {
    assert [c][1..] == "";
    if LexChar(l, c).Some? {
      assert Lex(LexChar(l, c).value, "") == Some(LexChar(l, c).value);
    }
  }

  lemma LexFour(l: Lexer, a: char, b: char, c: char, d: char)
    requires l.mode == Quoted && l.inWord && [a, b, c, d] == ESCAPED_QUOTE
    ensures Lex(l, ESCAPED_QUOTE) == Some(Append(l, '\''))
  {
    var l1 := l.(mode := Plain);
    var l2 := l.(mode := Escaped);
    var l3 := Append(l, '\'').(mode := Plain);
    assert ESCAPED_QUOTE == "'" + ("\\" + ("'" + "'"));
    LexConcat(l, "'", "\\" + ("'" + "'"));
    LexConcat(l1, "\\", "'" + "'");
    LexConcat(l2, "'", "'");
    LexOne(l, '\'');
    LexOne(l1, '\\');
    LexOne(l2, '\'');
    LexOne(l3, '\'');
  }

  /** In the middle of a word, the quoted form adds exactly the value to it. */
  lemma LexQuote(l: Lexer, v: string)
    requires l.mode == Plain && NUL !in v
    ensures Lex(l, Quote(v)) == Some(l.(inWord := true, word := l.word + v))
  {
    var l1 := l.(mode := Quoted, inWord := true);
    var l2 := l1.(word := l.word + v);
    assert Quote(v) == "'" + (QuoteBody(v) + "'");
    LexConcat(l, "'", QuoteBody(v) + "'");
    LexOne(l, '\'');
    LexQuoteBody(l1, v);
    LexConcat(l1, QuoteBody(v), "'");
    LexOne(l2, '\'');
  }

  lemma {:induction false} LexOrdinary(l: Lexer, s: string)
    requires l.mode == Plain && l.inWord && forall i :: 0 <= i < |s| ==> Ordinary(s[i])
    ensures Lex(l, s) == Some(l.(word := l.word + s))
    decreases |s|
  {
    if s == "" {
      assert l.word + s == l.word;
    } else {
      assert Append(l, s[0]).word + s[1..] == l.word + s;
      LexOrdinary(Append(l, s[0]), s[1..]);
    }
  }

  /** A word of ordinary characters that starts after a blank. */
  lemma LexWord(l: Lexer, s: string)
    requires l.mode == Plain && !l.inWord && l.word == "" && s != ""
    requires forall i :: 0 <= i < |s| ==> Ordinary(s[i])
    ensures Lex(l, s) == Some(l.(inWord := true, word := s))
  {
    var l1 := Append(l, s[0]);
    assert l1.word == [s[0]] && [s[0]] + s[1..] == s;
    assert LexChar(l, s[0]) == Some(l1);
    LexOrdinary(l1, s[1..]);
  }

  function Assignment(name: string, v: string): string {
    "export " + name + "=" + Quote(v)
  }

  /** One assignment without its newline leaves its two words pending. */
  lemma LexAssignment(l: Lexer, name: string, v: string)
    requires l.mode == Plain && !l.inWord && l.word == "" && l.words == []
    requires ValidKey(name) && NUL !in v
    ensures Lex(l, Assignment(name, v)) ==
      Some(l.(inWord := true, word := name + "=" + v, words := ["export"]))
  {
    hide Quote;
    var rest := (name + "=") + Quote(v);
    assert Assignment(name, v) == "export" + (" " + rest);
    hide Assignment;
    LexCommand(l, rest);
    LexValue(l.(words := ["export"]), name, v);
  }

  /** The word `export` and the blank after it. */
  lemma LexCommand(l: Lexer, rest: string)
    requires l.mode == Plain && !l.inWord && l.word == "" && l.words == []
    ensures Lex(l, "export" + (" " + rest)) == Lex(l.(words := ["export"]), rest)
  {
    var l1 := l.(inWord := true, word := "export");
    assert l.words + ["export"] == ["export"];
    LexOne(l1, ' ');
    assert LexChar(l1, ' ') == Some(l.(words := ["export"]));
    LexWord(l, "export");
    hide Lex, LexChar;
    LexConcat(l, "export", " " + rest);
    LexConcat(l1, " ", rest);
  }

  lemma LexValue(l: Lexer, name: string, v: string)
    requires l.mode == Plain && !l.inWord && l.word == "" && ValidKey(name) && NUL !in v
    ensures Lex(l, (name + "=") + Quote(v)) == Some(l.(inWord := true, word := name + "=" + v))
  {
    assert forall i :: 0 <= i < |name + "="| ==> Ordinary((name + "=")[i]);
    hide Lex, Quote, Ordinary, ValidKey;
    LexConcat(l, name + "=", Quote(v));
    LexWord(l, name + "=");
    LexQuote(l.(inWord := true, word := name + "="), v);
  }

  // ---------------------------------------------------------------- the script

  function Line(name: string, v: string): string {
    Assignment(name, v) + "\n"
  }

  function Script(names: seq<string>, m: Secrets): string
    requires forall i :: 0 <= i < |names| ==> names[i] in m
  {
    if names == [] then ""
    else Script(names[..|names| - 1], m) + Line(names[|names| - 1], m[names[|names| - 1]].value)
  }

  function Assignments(names: seq<string>, m: Secrets): seq<seq<string>>
    requires forall i :: 0 <= i < |names| ==> names[i] in m
  {
    if names == [] then []
    else Assignments(names[..|names| - 1], m) + [["export", names[|names| - 1] + "=" + m[names[|names| - 1]].value]]
  }

  predicate Exportable(names: seq<string>, m: Secrets) {
    forall i :: 0 <= i < |names| ==> names[i] in m && ValidKey(names[i]) && NUL !in m[names[i]].value
  }

  lemma {:induction false} LexScript(names: seq<string>, m: Secrets)
    requires Exportable(names, m)
    ensures Lex(START, Script(names, m)) == Some(START.(commands := Assignments(names, m)))
    decreases |names|
  {
    if names != [] {
      var init, name := names[..|names| - 1], names[|names| - 1];
      var l := START.(commands := Assignments(init, m));
      var l1 := l.(inWord := true, word := name + "=" + m[name].value, words := ["export"]);
      LexScript(init, m);
      LexConcat(START, Script(init, m), Line(name, m[name].value));
      LexAssignment(l, name, m[name].value);
      LexConcat(l, Assignment(name, m[name].value), "\n");
      LexOne(l1, '\n');
      assert ["export"] + [l1.word] == ["export", l1.word];
    }
  }

  /** Without its last newline the script is the same commands: every value's own trailing
      newlines are inside quotes. */
  lemma SubstitutedScript(names: seq<string>, m: Secrets)
    requires Exportable(names, m)
    ensures Commands(Script(names, m)) == Some(Assignments(names, m))
    ensures Commands(Substituted(Script(names, m))) == Some(Assignments(names, m))
  {
    LexScript(names, m);
    if names != [] {
      var init, name := names[..|names| - 1], names[|names| - 1];
      var a := Assignment(name, m[name].value);
      var text := Script(init, m) + a;
      assert Script(names, m) == text + "\n";
      assert a[|a| - 1] == '\'' && text[|text| - 1] == '\'';
      assert Script(names, m)[..|text|] == text;
      assert Substituted(text) == text;
      LexScript(init, m);
      LexConcat(START, Script(init, m), a);
      LexAssignment(START.(commands := Assignments(init, m)), name, m[name].value);
      assert ["export"] + [name + "=" + m[name].value] == ["export", name + "=" + m[name].value];
    }
  }

  function Values(m: Secrets): Env {
    map k | k in m :: m[k].value
  }

  function Restricted(names: seq<string>, m: Secrets): Env {
    map k | k in m && k in names :: m[k].value
  }

  lemma KeyIsName(name: string, v: string, env: Env)
    requires ValidKey(name)
    ensures Assign(env, name + "=" + v) == Some(env[name := v])
  {
    var s := name + "=" + v;
    assert forall i :: 0 <= i < |name| ==> s[i] == name[i] && s[i] != '=';
    assert s[|name|] == '=';
    assert IndexOf(s, '=') == |name|;
    assert s[..|name|] == name && s[|name| + 1..] == v;
  }

  lemma {:induction false} RunAssignments(names: seq<string>, m: Secrets, env: Env)
    requires Exportable(names, m)
    ensures Run(env, Assignments(names, m)) == Some(env + Restricted(names, m))
    decreases |names|
  {
    if names == [] {
      assert env + Restricted(names, m) == env;
    } else {
      var init, name := names[..|names| - 1], names[|names| - 1];
      var e := env + Restricted(init, m);
      var last := [["export", name + "=" + m[name].value]];
      RunAssignments(init, m, env);
      RunConcat(env, Assignments(init, m), last);
      KeyIsName(name, m[name].value, e);
      assert last[1..] == [];
      assert Run(e, last) == Some(e[name := m[name].value]);
      RestrictedSnoc(init, name, m, env);
      assert names == init + [name];
    }
  }

  lemma RestrictedSnoc(init: seq<string>, name: string, m: Secrets, env: Env)
    requires name in m
    ensures (env + Restricted(init, m))[name := m[name].value] == env + Restricted(init + [name], m)
  {
  }

  /** Evaluating the whole output, directly or through command substitution, sets every secret to
      exactly its value and touches nothing else. */
  lemma ExportMeaning(names: seq<string>, m: Secrets, env: Env)
    requires Exportable(names, m) && forall k :: k in m ==> k in names
    ensures Eval(env, Script(names, m)) == Some(env + Values(m))
    ensures Eval(env, Substituted(Script(names, m))) == Some(env + Values(m))
  {
    SubstitutedScript(names, m);
    RunAssignments(names, m, env);
    assert Restricted(names, m) == Values(m);
  }

  // ---------------------------------------------------------------- the command

  datatype ExportError = BadName(name: string) | BadValue(name: string)

  lemma EarlierFine(names: seq<string>, i: nat, m: Secrets)
    requires Sorted(names) && i < |names| && (forall k :: k in names <==> k in m) && Exportable(names[..i], m)
    ensures forall k :: k in m && LessEq(k, names[i]) && k != names[i] ==> ValidKey(k) && NUL !in m[k].value
  {
    hide ValidKey;
    forall k | k in m && LessEq(k, names[i]) && k != names[i]
      ensures ValidKey(k) && NUL !in m[k].value
    {
      var j :| 0 <= j < |names| && names[j] == k;
      LessEqTotal(names[i], k);
      assert j < i;
      assert names[..i][j] == k;
    }
  }

  lemma ScriptSnoc(names: seq<string>, i: nat, m: Secrets)
    requires i < |names| && Exportable(names[..i], m) && names[i] in m && ValidKey(names[i]) && NUL !in m[names[i]].value
    ensures Exportable(names[..i + 1], m)
    ensures Script(names[..i + 1], m) ==
      Script(names[..i], m) + ("export " + names[i] + "=" + Quote(m[names[i]].value) + "\n")
  {
    hide ValidKey, Quote;
    assert names[..i + 1][..i] == names[..i];
  }

  /** What `export` prints, or why it refuses. */
  method Export(v: Vault) returns (r: Result<string, ExportError>)
    ensures r.Ok? <==> forall k :: k in v.secrets ==> ValidKey(k) && NUL !in v.secrets[k].value
    ensures r.Ok? ==> forall env :: Eval(env, r.value) == Some(env + Values(v.secrets))
    ensures r.Ok? ==> forall env :: Eval(env, Substituted(r.value)) == Some(env + Values(v.secrets))
    ensures r.Err? ==> r.error.name in v.secrets
    ensures r.Err? && r.error.BadName? ==> !ValidKey(r.error.name)
    ensures r.Err? && r.error.BadValue? ==> ValidKey(r.error.name) && NUL in v.secrets[r.error.name].value
    ensures r.Err? ==> forall k :: k in v.secrets && LessEq(k, r.error.name) && k != r.error.name ==> ValidKey(k) && NUL !in v.secrets[k].value
  {
    hide Quote, ValidKey, Eval, Substituted, Values, LessEq;
    var names := v.Names();
    assert names[..0] == [] && Script([], v.secrets) == "";
    hide Script;
    var out := "";
    for i := 0 to |names|
      invariant Exportable(names[..i], v.secrets) && out == Script(names[..i], v.secrets)
    {
      var name := names[i];
      assert name in names;
      EarlierFine(names, i, v.secrets);
      if CheckKey(name).Some? {
        return Err(BadName(name));
      }
      var quoted := ShellQuote(v.secrets[name].value);
      if quoted.Err? {
        return Err(BadValue(name));
      }
      ScriptSnoc(names, i, v.secrets);
      out := out + ("export " + name + "=" + quoted.value + "\n");
    }
    assert names[..|names|] == names;
    forall env
      ensures Eval(env, out) == Some(env + Values(v.secrets))
      ensures Eval(env, Substituted(out)) == Some(env + Values(v.secrets))
    {
      ExportMeaning(names, v.secrets, env);
    }
    return Ok(out);
  }
}
