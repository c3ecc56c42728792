/** The strict .env grammar: `parseDotenv` and `parseValue`. */
module Dotenv {
  import opened Wrappers
  import opened Format
  import opened Text
  import opened Entries

  // ---------------------------------------------------------------- lines

  function DropCR(s: string): string {
    if s != "" && s[|s| - 1] == '\r' then s[..|s| - 1] else s
  }

  /** `bufio.ScanLines`: one trailing CR is dropped, an empty rest at the end is no line. */
  function Lines(text: string): seq<string>
    decreases |text|
  {
    if text == "" then []
    else
      var i := IndexOf(text, '\n');
      if i < |text| then [DropCR(text[..i])] + Lines(text[i + 1..]) else [DropCR(text)]
  }

  datatype Kind =
    | NulByte | StrayCR | Continuation | NotAssignment | SpacesAroundEq | BadKey | Duplicate(prev: nat)
    | UnmatchedQuote | TextAfterQuote | QuoteInBare | HashInBare | EdgeBlanks

  datatype ParseError = ParseError(line: nat, kind: Kind)

  // ---------------------------------------------------------------- one line

  datatype Split = Skip | Pair(key: string, rest: string) | Bad(kind: Kind)

  predicate EndsBlank(s: string) {
    s != "" && IsBlank(s[|s| - 1])
  }

  function ExportPrefix(): (p: string)
    ensures |p| == 7 && p[0] == 'e'
  {
    "export "
  }

  function TrimExport(s: string): string {
    if ExportPrefix() <= s then s[7..] else s
  }

  /** The key and what follows the first `=`. */
  function SplitKey(t: string): (s: Split)
    ensures !s.Skip?
  {
    var eq := IndexOf(t, '=');
    if eq == |t| then Bad(NotAssignment)
    else if EndsBlank(t[..eq]) then Bad(SpacesAroundEq)
    else if CheckKey(t[..eq]).Some? then Bad(BadKey)
    else Pair(t[..eq], t[eq + 1..])
  }

  /** A line without its leading blanks. */
  function SplitTrimmed(trimmed: string): Split {
    if trimmed == "" then Skip
    else if trimmed[0] == '#' then Skip
    else if trimmed[|trimmed| - 1] == '\\' then Bad(Continuation)
    else SplitKey(TrimLeft(TrimExport(trimmed)))
  }

  /** Everything up to the key check. */
  function SplitLine(raw: string): Split {
    if NUL in raw then Bad(NulByte)
    else if '\r' in raw then Bad(StrayCR)
    else SplitTrimmed(TrimLeft(raw))
  }

  function ParseValue(rest: string): Result<string, Kind> {
    if rest == "" then Ok("")
    else if rest[0] == '\'' || rest[0] == '"' then
      var end := IndexOf(rest[1..], rest[0]);
      if end == |rest| - 1 then Err(UnmatchedQuote)
      else if rest[end + 2..] != "" then Err(TextAfterQuote)
      else Ok(rest[1..end + 1])
    else if '"' in rest || '\'' in rest then Err(QuoteInBare)
    else if '#' in rest then Err(HashInBare)
    else if IsBlank(rest[0]) || EndsBlank(rest) then Err(EdgeBlanks)
    else Ok(rest)
  }

  // ---------------------------------------------------------------- the whole input

  /** The next line, number n, after the entries already read. */
  function Extend(entries: seq<Entry>, raw: string, n: nat): Result<seq<Entry>, ParseError> {
    match SplitLine(raw)
    case Skip => Ok(entries)
    case Bad(kind) => Err(ParseError(n, kind))
    case Pair(key, rest) =>
      if HasKey(entries, key) then Err(ParseError(n, Duplicate(EntryOf(entries, key).loc.n)))
      else match ParseValue(rest)
        case Err(kind) => Err(ParseError(n, kind))
        case Ok(value) => Ok(entries + [Entry(key, value, Line(n))])
  }

  function Parse(lines: seq<string>): Result<seq<Entry>, ParseError> {
    if lines == [] then Ok([])
    else match Parse(lines[..|lines| - 1])
      case Err(e) => Err(e)
      case Ok(entries) => Extend(entries, lines[|lines| - 1], |lines|)
  }

  lemma {:induction false} ErrorsStick(lines: seq<string>, more: seq<string>)
    requires Parse(lines).Err?
    ensures Parse(lines + more) == Parse(lines)
    decreases |more|
  {
    if more == [] {
      assert lines + more == lines;
    } else {
      ErrorsStick(lines, more[..|more| - 1]);
      assert (lines + more)[..|lines + more| - 1] == lines + more[..|more| - 1];
    }
  }

  lemma ParseSnoc(done: seq<string>, raw: string, n: nat)
    requires Parse(done).Ok? && n == |done| + 1
    ensures Parse(done + [raw]) == Extend(Parse(done).value, raw, n)
  {
    var lines := done + [raw];
    assert lines[..|lines| - 1] == done && lines[|lines| - 1] == raw && |lines| == n;
  }

  lemma FirstError(text: string, done: seq<string>, rest: string)
    requires Lines(text) == done + Lines(rest) && Parse(done).Err?
    ensures Parse(Lines(text)) == Parse(done)
  {
    ErrorsStick(done, Lines(rest));
  }

  /** One `Scan` of the line scanner. */
  method Scan(text: string) returns (raw: string, rest: string)
    requires text != ""
    ensures Lines(text) == [raw] + Lines(rest) && |rest| < |text|
  {
    var eol := IndexOf(text, '\n');
    raw := DropCR(text[..eol]);
    if eol < |text| {
      rest := text[eol + 1..];
    } else {
      assert text[..eol] == text;
      rest := "";
    }
  }

  /** The entries so far and the map of the lines that assigned them. */
  ghost predicate Seen(entries: seq<Entry>, seen: map<string, nat>) {
    && (forall k :: k in seen <==> HasKey(entries, k))
    && (forall k :: k in seen ==> EntryOf(entries, k).loc == Line(seen[k]))
  }

  lemma SeenSnoc(entries: seq<Entry>, seen: map<string, nat>, key: string, value: string, n: nat)
    requires Seen(entries, seen)
    ensures Seen(entries + [Entry(key, value, Line(n))], seen[key := n])
  {
    HasKeySnoc(entries, Entry(key, value, Line(n)));
  }

  method ParseDotenv(text: string) returns (r: Result<seq<Entry>, ParseError>)
    ensures r == Parse(Lines(text))
  {
    var entries: seq<Entry> := [];
    var seen: map<string, nat> := map[];
    var rest := text;
    var n := 1;
    ghost var done: seq<string> := [];
    while rest != ""
      invariant Lines(text) == done + Lines(rest) && n == |done| + 1
      invariant Parse(done) == Ok(entries) && Seen(entries, seen)
      decreases |rest|
    {
      var raw;
      raw, rest := Scan(rest);
      assert Lines(text) == (done + [raw]) + Lines(rest);
      ParseSnoc(done, raw, n);
      done := done + [raw];
      if Parse(done).Err? { FirstError(text, done, rest); }
      var split := SplitLine(raw);
      if split.Bad? {
        return Err(ParseError(n, split.kind));
      }
      if split.Pair? {
        if split.key in seen {
          return Err(ParseError(n, Duplicate(seen[split.key])));
        }
        var value := ParseValue(split.rest);
        if value.Err? {
          return Err(ParseError(n, value.error));
        }
        SeenSnoc(entries, seen, split.key, value.value, n);
        seen := seen[split.key := n];
        entries := entries + [Entry(split.key, value.value, Line(n))];
      }
      n := n + 1;
    }
    assert done + Lines(rest) == done;
    return Ok(entries);
  }
}
