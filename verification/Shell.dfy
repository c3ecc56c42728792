/** The part of the POSIX shell command language that a script of `export NAME=word` lines can
    meet: sections 2.2.1, 2.2.2 and 2.3 of XCU.  Any character that could mean something else
    when it is not quoted makes the result None, so a Some is never a guess. */
module Shell {
  import opened Wrappers
  import opened Text

  datatype Mode = Plain | Quoted | Escaped

  /** The words of the current command so far, and the commands already complete. */
  datatype Lexer = Lexer(mode: Mode, inWord: bool, word: string, words: seq<string>, commands: seq<seq<string>>)

  const START := Lexer(Plain, false, "", [], [])

  /** Characters that stand for themselves wherever they appear. */
  predicate Ordinary(c: char) {
    'a' <= c <= 'z' || 'A' <= c <= 'Z' || '0' <= c <= '9' || c == '_' || c == '='
  }

  function EndWord(l: Lexer): Lexer {
    if l.inWord then l.(inWord := false, word := "", words := l.words + [l.word]) else l
  }

  function EndCommand(l: Lexer): Lexer {
    var e := EndWord(l);
    if e.words == [] then e else e.(words := [], commands := e.commands + [e.words])
  }

  function Append(l: Lexer, c: char): Lexer {
    l.(inWord := true, word := l.word + [c])
  }

  function LexChar(l: Lexer, c: char): Option<Lexer> {
    if c == '\0' then None
    else match l.mode
      case Quoted => Some(if c == '\'' then l.(mode := Plain) else Append(l, c))
      case Escaped => Some(if c == '\n' then l.(mode := Plain) else Append(l, c).(mode := Plain))
      case Plain =>
        if c == '\'' then Some(l.(mode := Quoted, inWord := true))
        else if c == '\\' then Some(l.(mode := Escaped))
        else if c == ' ' || c == '\t' then Some(EndWord(l))
        else if c == '\n' then Some(EndCommand(l))
        else if Ordinary(c) then Some(Append(l, c))
        else None
  }

  function Lex(l: Lexer, text: string): Option<Lexer>
    decreases |text|
  {
    if text == "" then Some(l)
    else match LexChar(l, text[0])
      case Some(l') => Lex(l', text[1..])
      case None => None
  }

  /** The simple commands of a whole script; None for an unterminated quote. */
  function Commands(text: string): Option<seq<seq<string>>> {
    match Lex(START, text)
    case Some(l) => if l.mode == Plain then Some(EndCommand(l).commands) else None
    case None => None
  }

  type Env = map<string, string>

  predicate IsName(s: string) {
    s != "" && !('0' <= s[0] <= '9')
    && forall i :: 0 <= i < |s| ==> 'a' <= s[i] <= 'z' || 'A' <= s[i] <= 'Z' || '0' <= s[i] <= '9' || s[i] == '_'
  }

  function Assign(env: Env, operand: string): Option<Env> {
    var eq := IndexOf(operand, '=');
    if eq < |operand| && IsName(operand[..eq]) then Some(env[operand[..eq] := operand[eq + 1..]]) else None
  }

  /** Runs `export` commands with one assignment each; any other command is None. */
  function Run(env: Env, commands: seq<seq<string>>): Option<Env>
    decreases |commands|
  {
    if commands == [] then Some(env)
    else if |commands[0]| == 2 && commands[0][0] == "export" then
      match Assign(env, commands[0][1])
      case Some(env') => Run(env', commands[1..])
      case None => None
    else None
  }

  /** `eval` of the text in environment env. */
  function Eval(env: Env, text: string): Option<Env> {
    match Commands(text)
    case Some(commands) => Run(env, commands)
    case None => None
  }

  /** Command substitution removes every newline at the end (XCU section 2.6.3). */
  function Substituted(text: string): string {
    if text != "" && text[|text| - 1] == '\n' then Substituted(text[..|text| - 1]) else text
  }

  lemma {:induction false} LexConcat(l: Lexer, a: string, b: string)
    ensures Lex(l, a + b) == match Lex(l, a) case Some(m) => Lex(m, b) case None => None
    decreases |a|
  {
    if a == "" {
      assert a + b == b;
    } else {
      assert (a + b)[1..] == a[1..] + b;
      if LexChar(l, a[0]).Some? {
        LexConcat(LexChar(l, a[0]).value, a[1..], b);
      }
    }
  }

  lemma {:induction false} RunConcat(env: Env, a: seq<seq<string>>, b: seq<seq<string>>)
    ensures Run(env, a + b) == match Run(env, a) case Some(e) => Run(e, b) case None => None
    decreases |a|
  {
    if a == [] {
      assert a + b == b;
    } else {
      assert (a + b)[1..] == a[1..] + b && (a + b)[0] == a[0];
      if |a[0]| == 2 && a[0][0] == "export" && Assign(env, a[0][1]).Some? {
        RunConcat(Assign(env, a[0][1]).value, a[1..], b);
      }
    }
  }
}
