/** The files `parseDotenv` accepts, described by printing them, and what it reads from each. */
module DotenvGrammar {
  import opened Wrappers
  import opened Format
  import opened Text
  import opened Entries
  import opened Dotenv

  datatype Style = Bare | Quoted(q: char)

  /** One line of a file; the blanks in it are free. */
  datatype Item =
    | BlankLine(ws: string)
    | Comment(ws: string, text: string)
    | Assign(ws: string, export_: Option<string>, key: string, value: string, style: Style)

  predicate OneLine(s: string) {
    NUL !in s && '\n' !in s && '\r' !in s
  }

  /** The value can stand unquoted, or does not contain the quote around it. */
  predicate Fits(value: string, style: Style) {
    match style
    case Quoted(q) => (q == '\'' || q == '"') && q !in value
    case Bare =>
      && '\'' !in value && '"' !in value && '#' !in value
      && (value != "" ==> !IsBlank(value[0]) && !IsBlank(value[|value| - 1]) && value[|value| - 1] != '\\')
  }

  predicate WellFormed(item: Item) {
    AllBlank(item.ws) &&
    match item
    case BlankLine(_) => true
    case Comment(_, text) => OneLine(text)
    case Assign(_, export_, key, value, style) =>
      && ValidKey(key) && OneLine(value) && Fits(value, style)
      && (export_.Some? ==> AllBlank(export_.value))
  }

  function Dressed(value: string, style: Style): string {
    match style
    case Bare => value
    case Quoted(q) => [q] + value + [q]
  }

  function Print(item: Item): string {
    match item
    case BlankLine(ws) => ws
    case Comment(ws, text) => ws + "#" + text
    case Assign(ws, export_, key, value, style) =>
      ws + Body(export_, key + "=" + Dressed(value, style))
  }

  /** An assignment without its leading blanks. */
  function Body(export_: Option<string>, core: string): string {
    if export_.Some? then ExportPrefix() + export_.value + core else core
  }

  function SplitOf(item: Item): Split {
    match item
    case Assign(_, _, key, value, style) => Pair(key, Dressed(value, style))
    case _ => Skip
  }

  /** What the items say, before any check for duplicates. */
  function EntriesOf(items: seq<Item>): seq<Entry> {
    if items == [] then []
    else
      var last := items[|items| - 1];
      EntriesOf(items[..|items| - 1]) +
      (if last.Assign? then [Entry(last.key, last.value, Line(|items|))] else [])
  }

  // ---------------------------------------------------------------- printing, then parsing one line

  lemma PrintOneLine(item: Item)
    requires WellFormed(item)
    ensures OneLine(Print(item))
  {
    BlanksOneLine(item.ws);
    if item.Assign? {
      if item.export_.Some? { BlanksOneLine(item.export_.value); }
      assert OneLine(item.key) by {
        assert forall i :: 0 <= i < |item.key| ==> KeyChar(item.key[i]);
      }
      assert OneLine(Dressed(item.value, item.style));
    }
  }

  lemma BlanksOneLine(ws: string)
    requires AllBlank(ws)
    ensures OneLine(ws)
  {
  }

  lemma ParseDressed(value: string, style: Style)
    requires OneLine(value) && Fits(value, style)
    ensures ParseValue(Dressed(value, style)) == Ok(value)
  {
    if style.Quoted? {
      var rest := Dressed(value, style);
      assert rest[1..] == value + [style.q] + "";
      IndexOfConcat(value, style.q, "");
      assert rest[1..|value| + 1] == value;
    }
  }

  lemma SplitKeyPrinted(key: string, dressed: string)
    requires ValidKey(key)
    ensures SplitKey(key + "=" + dressed) == Pair(key, dressed)
  {
    var t := key + "=" + dressed;
    assert '=' !in key by {
      assert forall i :: 0 <= i < |key| ==> KeyChar(key[i]);
    }
    IndexOfConcat(key, '=', dressed);
    assert t == key + ['='] + dressed;
    assert t[..|key|] == key && t[|key| + 1..] == dressed;
    assert KeyChar(key[|key| - 1]);
  }

  lemma ExportedBody(blanks: string, core: string)
    requires core != "" && !IsBlank(core[0]) && AllBlank(blanks)
    ensures var body := ExportPrefix() + blanks + core;
      && TrimLeft(TrimExport(body)) == core && body != "" && !IsBlank(body[0]) && body[0] != '#'
      && body[|body| - 1] == core[|core| - 1]
  {
    var p := ExportPrefix();
    assert |p| == 7 && !IsBlank(p[0]) && p[0] != '#';
    hide TrimLeft, ExportPrefix, AllBlank, IsBlank;
    var body := p + blanks + core;
    Assoc(p, blanks, core);
    assert body[..7] == p && body[7..] == blanks + core;
    TrimLeftBlanks(blanks, core);
  }

  lemma BareBody(core: string)
    requires core != "" && KeyStart(core[0])
    ensures TrimLeft(TrimExport(core)) == core && !IsBlank(core[0]) && core[0] != '#'
  {
    assert ExportPrefix()[0] == 'e';
    TrimLeftBlanks("", core);
    assert "" + core == core;
  }

  lemma BodyParts(export_: Option<string>, core: string)
    requires core != "" && KeyStart(core[0]) && (export_.Some? ==> AllBlank(export_.value))
    ensures TrimLeft(TrimExport(Body(export_, core))) == core
    ensures var body := Body(export_, core);
      body != "" && !IsBlank(body[0]) && body[0] != '#' && body[|body| - 1] == core[|core| - 1]
  {
    BareBody(core);
    hide TrimLeft, TrimExport, ExportPrefix, AllBlank, IsBlank;
    if export_.Some? {
      ExportedBody(export_.value, core);
    }
  }

  lemma SplitLineOf(ws: string, body: string)
    requires AllBlank(ws) && OneLine(ws + body) && body != "" && !IsBlank(body[0])
    ensures SplitLine(ws + body) == SplitTrimmed(body)
  {
    TrimLeftBlanks(ws, body);
  }

  lemma SplitAssign(item: Item)
    requires WellFormed(item) && item.Assign?
    ensures SplitLine(Print(item)) == SplitOf(item)
  {
    hide Body, IndexOf, TrimLeft, TrimExport, SplitKey, Fits, OneLine;
    var dressed := Dressed(item.value, item.style);
    var core := item.key + "=" + dressed;
    PrintOneLine(item);
    BodyParts(item.export_, core);
    SplitLineOf(item.ws, Body(item.export_, core));
    assert core[|core| - 1] != '\\' by {
      DressedEnd(item.value, item.style);
      if dressed != "" { assert core[|core| - 1] == dressed[|dressed| - 1]; }
    }
    SplitKeyPrinted(item.key, dressed);
  }

  lemma DressedEnd(value: string, style: Style)
    requires Fits(value, style)
    ensures Dressed(value, style) != "" ==> Dressed(value, style)[|Dressed(value, style)| - 1] != '\\'
  {
  }

  lemma SplitBlank(ws: string)
    requires AllBlank(ws)
    ensures SplitLine(ws) == Skip
  {
    BlanksOneLine(ws);
    TrimLeftBlanks(ws, "");
    assert ws + "" == ws;
  }

  lemma SplitComment(ws: string, text: string)
    requires AllBlank(ws) && OneLine(text)
    ensures SplitLine(ws + "#" + text) == Skip
  {
    var body := "#" + text;
    assert body[0] == '#' && ws + "#" + text == ws + body;
    assert OneLine(ws + body) by {
      BlanksOneLine(ws);
    }
    hide OneLine, SplitKey, TrimLeft, TrimExport;
    SplitLineOf(ws, body);
  }

  lemma SplitPrint(item: Item)
    requires WellFormed(item)
    ensures SplitLine(Print(item)) == SplitOf(item)
  {
    hide SplitLine;
    match item
    case BlankLine(ws) => SplitBlank(ws);
    case Comment(ws, text) => SplitComment(ws, text);
    case Assign(_, _, _, _, _) => SplitAssign(item);
  }

  // ---------------------------------------------------------------- parsing, then printing one line

  predicate Accepted(raw: string) {
    match SplitLine(raw)
    case Skip => true
    case Pair(_, rest) => ParseValue(rest).Ok?
    case Bad(_) => false
  }

  function StyleOf(rest: string): Style {
    if rest != "" && (rest[0] == '\'' || rest[0] == '"') then Quoted(rest[0]) else Bare
  }

  /** The blanks that TrimLeft removes. */
  function Indent(s: string): string {
    s[..|s| - |TrimLeft(s)|]
  }

  /** The blanks after `export `, if the line has that prefix. */
  function ExportOf(trimmed: string): Option<string> {
    if ExportPrefix() <= trimmed then Some(Indent(trimmed[7..])) else None
  }

  /** The item a line without its indent came from. */
  function RecoverTrimmed(ws: string, trimmed: string): Item {
    match SplitTrimmed(trimmed)
    case Pair(key, rest) =>
      (match ParseValue(rest)
       case Ok(value) => Assign(ws, ExportOf(trimmed), key, value, StyleOf(rest))
       case Err(_) => BlankLine(ws))
    case Skip => if trimmed == "" then BlankLine(ws) else Comment(ws, trimmed[1..])
    case Bad(_) => BlankLine(ws)
  }

  /** The item a line that is not refused came from. */
  function Recover(raw: string): Item {
    RecoverTrimmed(Indent(raw), TrimLeft(raw))
  }

  predicate IsSuffix(b: string, s: string) {
    |b| <= |s| && s[|s| - |b|..] == b
  }

  lemma DressedAgain(rest: string)
    requires ParseValue(rest).Ok? && OneLine(rest) && (rest == "" || rest[|rest| - 1] != '\\')
    ensures var value := ParseValue(rest).value;
      OneLine(value) && Fits(value, StyleOf(rest)) && Dressed(value, StyleOf(rest)) == rest
  {
    if StyleOf(rest).Quoted? {
      var end := IndexOf(rest[1..], rest[0]);
      assert rest[1..][..end] == rest[1..end + 1];
      assert rest == [rest[0]] + rest[1..end + 1] + [rest[0]];
    }
  }

  lemma SplitKeyParts(t: string)
    requires SplitKey(t).Pair?
    ensures t == SplitKey(t).key + "=" + SplitKey(t).rest && ValidKey(SplitKey(t).key)
    ensures IsSuffix(SplitKey(t).rest, t)
  {
    var eq := IndexOf(t, '=');
    assert t == t[..eq] + [t[eq]] + t[eq + 1..];
  }

  lemma IndentBlank(s: string)
    ensures AllBlank(Indent(s)) && s == Indent(s) + TrimLeft(s)
  {
    Cut(s, |s| - |TrimLeft(s)|);
  }

  lemma SuffixOf(front: string, b: string)
    ensures IsSuffix(b, front + b)
  {
    assert (front + b)[|front|..] == b;
  }

  lemma Rejoin(s: string, p: string, gap: string, t: string)
    requires p <= s && s[|p|..] == gap + t
    ensures s == p + gap + t
  {
    Cut(s, |p|);
    Assoc(p, gap, t);
  }

  lemma ExportedParts(trimmed: string, t: string)
    requires ExportPrefix() <= trimmed && t == TrimLeft(trimmed[|ExportPrefix()|..])
    ensures trimmed == ExportPrefix() + Indent(trimmed[|ExportPrefix()|..]) + t && IsSuffix(t, trimmed)
    ensures AllBlank(Indent(trimmed[|ExportPrefix()|..]))
  {
    hide TrimLeft, Indent, ExportPrefix, AllBlank, IsSuffix;
    var gap := Indent(trimmed[|ExportPrefix()|..]);
    IndentBlank(trimmed[|ExportPrefix()|..]);
    Rejoin(trimmed, ExportPrefix(), gap, t);
    SuffixOf(ExportPrefix() + gap, t);
  }
  lemma BareParts(trimmed: string)
    requires trimmed != "" && !IsBlank(trimmed[0])
    ensures TrimLeft(trimmed) == trimmed && IsSuffix(trimmed, trimmed)
  {
    TrimLeftBlanks("", trimmed);
    assert "" + trimmed == trimmed;
  }

  lemma ExportParts(trimmed: string, t: string)
    requires trimmed != "" && !IsBlank(trimmed[0]) && t == TrimLeft(TrimExport(trimmed))
    ensures trimmed == Body(ExportOf(trimmed), t) && IsSuffix(t, trimmed)
    ensures ExportOf(trimmed).Some? ==> AllBlank(ExportOf(trimmed).value)
  {
    assert |ExportPrefix()| == 7;
    hide TrimLeft, Indent, ExportPrefix, AllBlank, IsSuffix, IsBlank;
    if ExportPrefix() <= trimmed {
      ExportedParts(trimmed, t);
    } else {
      BareParts(trimmed);
    }
  }

  lemma SuffixOneLine(b: string, s: string)
    requires OneLine(s) && IsSuffix(b, s)
    ensures OneLine(b) && (b != "" ==> b[|b| - 1] == s[|s| - 1])
  {
    assert forall i :: 0 <= i < |b| ==> b[i] == s[|s| - |b| + i];
  }

  lemma SuffixSuffix(c: string, b: string, s: string)
    requires IsSuffix(c, b) && IsSuffix(b, s)
    ensures IsSuffix(c, s)
  {
    assert s[|s| - |c|..] == s[|s| - |b|..][|b| - |c|..];
  }

  lemma AcceptedTrimmed(raw: string)
    requires Accepted(raw) && '\n' !in raw
    ensures OneLine(raw) && SplitLine(raw) == SplitTrimmed(TrimLeft(raw))
    ensures SplitLine(raw).Pair? ==> ParseValue(SplitLine(raw).rest).Ok?
    ensures !SplitLine(raw).Bad?
  {
    hide SplitTrimmed, ParseValue, TrimLeft;
  }

  lemma PairParts(ws: string, trimmed: string)
    requires SplitTrimmed(trimmed).Pair? && ParseValue(SplitTrimmed(trimmed).rest).Ok?
    requires trimmed != "" ==> !IsBlank(trimmed[0])
    ensures trimmed != "" && trimmed[|trimmed| - 1] != '\\'
    ensures SplitKey(TrimLeft(TrimExport(trimmed))) == SplitTrimmed(trimmed)
    ensures RecoverTrimmed(ws, trimmed) ==
      Assign(ws, ExportOf(trimmed), SplitTrimmed(trimmed).key, ParseValue(SplitTrimmed(trimmed).rest).value,
             StyleOf(SplitTrimmed(trimmed).rest))
  {
    hide SplitKey, ParseValue, TrimLeft, TrimExport, StyleOf, ExportOf;
  }

  lemma AssignRecovered(ws: string, trimmed: string)
    requires SplitTrimmed(trimmed).Pair? && ParseValue(SplitTrimmed(trimmed).rest).Ok?
    requires (trimmed != "" ==> !IsBlank(trimmed[0])) && OneLine(trimmed) && AllBlank(ws)
    ensures WellFormed(RecoverTrimmed(ws, trimmed)) && Print(RecoverTrimmed(ws, trimmed)) == ws + trimmed
  {
    hide SplitTrimmed, SplitKey, ParseValue, OneLine, Fits, Dressed, StyleOf, ExportOf, TrimLeft, TrimExport, Body,
         IndexOf, RecoverTrimmed, AllBlank;
    PairParts(ws, trimmed);
    var t := TrimLeft(TrimExport(trimmed));
    var key, rest := SplitTrimmed(trimmed).key, SplitTrimmed(trimmed).rest;
    SplitKeyParts(t);
    ExportParts(trimmed, t);
    Assoc(key, "=", rest);
    SuffixSuffix(rest, t, trimmed);
    SuffixOneLine(rest, trimmed);
    DressedAgain(rest);
  }

  lemma SkipParts(trimmed: string)
    requires SplitTrimmed(trimmed).Skip?
    ensures trimmed != "" ==> trimmed[0] == '#'
  {
    hide SplitKey, TrimLeft, TrimExport;
  }

  lemma CommentRecovered(ws: string, trimmed: string)
    requires SplitTrimmed(trimmed).Skip? && OneLine(trimmed) && AllBlank(ws)
    ensures WellFormed(RecoverTrimmed(ws, trimmed)) && Print(RecoverTrimmed(ws, trimmed)) == ws + trimmed
  {
    hide SplitTrimmed, OneLine, AllBlank, ParseValue, StyleOf, ExportOf, Fits, Body;
    SkipParts(trimmed);
    if trimmed == "" {
      assert ws + trimmed == ws;
    } else {
      Cut(trimmed, 1);
      assert trimmed[..1] == "#";
      Assoc(ws, "#", trimmed[1..]);
      SuffixOneLine(trimmed[1..], trimmed);
    }
  }

  /** Every line that is not refused is the print of the item it is read as. */
  lemma PrintRecovered(raw: string)
    requires Accepted(raw) && '\n' !in raw
    ensures WellFormed(Recover(raw)) && Print(Recover(raw)) == raw
  {
    hide SplitLine, SplitTrimmed, TrimLeft, Indent, OneLine, RecoverTrimmed, WellFormed, Print, ParseValue, AllBlank, Accepted;
    AcceptedTrimmed(raw);
    IndentBlank(raw);
    SuffixOneLine(TrimLeft(raw), raw);
    if SplitLine(raw).Pair? {
      AssignRecovered(Indent(raw), TrimLeft(raw));
    } else {
      CommentRecovered(Indent(raw), TrimLeft(raw));
    }
  }

  // ---------------------------------------------------------------- whole files

  predicate AllWellFormed(items: seq<Item>) {
    forall i :: 0 <= i < |items| ==> WellFormed(items[i])
  }

  predicate Prints(items: seq<Item>, lines: seq<string>) {
    |items| == |lines| && forall i :: 0 <= i < |items| ==> Print(items[i]) == lines[i]
  }

  /** Lines that print well-formed items with distinct keys are accepted, and read in order. */
  /** The last item adds a new key, if any. */
  lemma LastEntry(items: seq<Item>, n: nat)
    requires |items| == n + 1 && Distinct(EntriesOf(items))
    ensures EntriesOf(items) == EntriesOf(items[..n]) + if items[n].Assign? then [Entry(items[n].key, items[n].value, Line(n + 1))] else []
    ensures Distinct(EntriesOf(items[..n])) && (items[n].Assign? ==> !HasKey(EntriesOf(items[..n]), items[n].key))
  {
    assert items == items[..n] + [items[n]];
    EntriesSnoc(items[..n], items[n]);
    hide EntriesOf;
    var all, before := EntriesOf(items), EntriesOf(items[..n]);
    assert before == all[..|before|];
    if items[n].Assign? {
      assert all[|before|].key == items[n].key;
    }
  }

  lemma {:induction false} ParsePrinted(items: seq<Item>, lines: seq<string>)
    requires AllWellFormed(items) && Prints(items, lines) && Distinct(EntriesOf(items))
    ensures Parse(lines) == Ok(EntriesOf(items))
    decreases |items|
  {
    hide Extend, SplitLine, Print, WellFormed;
    if items != [] {
      hide Parse, EntriesOf, Distinct, HasKey;
      var n := |items| - 1;
      LastEntry(items, n);
      ParsePrinted(items[..n], lines[..n]);
      assert lines == lines[..n] + [lines[n]];
      ParseSnoc(lines[..n], lines[n], n + 1);
      ExtendPrinted(EntriesOf(items[..n]), items[n], n + 1);
    }
  }

  lemma ExtendPrinted(before: seq<Entry>, item: Item, n: nat)
    requires WellFormed(item) && (item.Assign? ==> !HasKey(before, item.key))
    ensures Extend(before, Print(item), n) ==
      Ok(before + if item.Assign? then [Entry(item.key, item.value, Line(n))] else [])
  {
    hide SplitLine, Print, ParseValue;
    SplitPrint(item);
    if item.Assign? {
      ParseDressed(item.value, item.style);
    } else {
      assert before + [] == before;
    }
  }

  lemma EntriesSnoc(items: seq<Item>, item: Item)
    ensures EntriesOf(items + [item]) ==
      EntriesOf(items) + if item.Assign? then [Entry(item.key, item.value, Line(|items| + 1))] else []
  {
    assert (items + [item])[..|items|] == items;
  }

  lemma NoEntries()
    ensures EntriesOf([]) == [] && Distinct([])
  {
  }

  /** Conversely, whatever is accepted prints well-formed items with distinct keys. */
  lemma {:induction false} AcceptedPrints(lines: seq<string>) returns (items: seq<Item>)
    requires Parse(lines).Ok? && forall i :: 0 <= i < |lines| ==> '\n' !in lines[i]
    ensures AllWellFormed(items) && Prints(items, lines)
    ensures EntriesOf(items) == Parse(lines).value && Distinct(EntriesOf(items))
    decreases |lines|
  {
    hide Extend, SplitLine, Recover, Print, WellFormed, Accepted, Distinct, EntriesOf;
    NoEntries();
    items := [];
    if lines != [] {
      var n := |lines| - 1;
      var before := AcceptedPrints(lines[..n]);
      assert lines == lines[..n] + [lines[n]];
      ParseSnoc(lines[..n], lines[n], n + 1);
      ExtendAccepted(EntriesOf(before), lines[n], n + 1);
      items := before + [Recover(lines[n])];
      EntriesSnoc(before, Recover(lines[n]));
    }
  }

  lemma RecoverAccepted(raw: string)
    requires Accepted(raw) && '\n' !in raw
    ensures SplitLine(raw).Pair? <==> Recover(raw).Assign?
    ensures SplitLine(raw).Pair? ==>
      Recover(raw).key == SplitLine(raw).key && Ok(Recover(raw).value) == ParseValue(SplitLine(raw).rest)
  {
    AcceptedTrimmed(raw);
    hide SplitLine, SplitTrimmed, TrimLeft, ParseValue, StyleOf, ExportOf;
  }

  lemma ExtendAccepted(before: seq<Entry>, raw: string, n: nat)
    requires Extend(before, raw, n).Ok? && '\n' !in raw && Distinct(before)
    ensures Accepted(raw) && WellFormed(Recover(raw)) && Print(Recover(raw)) == raw
    ensures var item := Recover(raw);
      Extend(before, raw, n).value == before + if item.Assign? then [Entry(item.key, item.value, Line(n))] else []
    ensures Distinct(Extend(before, raw, n).value)
  {
    hide SplitLine, Print, WellFormed, ParseValue, Recover;
    PrintRecovered(raw);
    RecoverAccepted(raw);
    assert before + [] == before;
    match SplitLine(raw)
    case Pair(key, _) => assert forall i :: 0 <= i < |before| ==> before[i].key != key;
    case _ =>
  }

  // ---------------------------------------------------------------- line ends

  datatype Eol = LF | CRLF

  function EolText(e: Eol): string {
    if e.LF? then "\n" else "\r\n"
  }

  /** How the last line ends: like the others, not at all, or with a CR alone. */
  datatype Tail = Ended | Open | OpenCR

  /** A file: every line with its line end, and the last one with its tail. */
  function FileText(lines: seq<string>, eols: seq<Eol>, tail: Tail): string
    requires |lines| == |eols|
  {
    if lines == [] then ""
    else if |lines| == 1 && tail.Open? then lines[0]
    else if |lines| == 1 && tail.OpenCR? then lines[0] + "\r"
    else lines[0] + EolText(eols[0]) + FileText(lines[1..], eols[1..], tail)
  }

  lemma LinesCons(line: string, e: Eol, rest: string)
    requires OneLine(line)
    ensures Lines(line + EolText(e) + rest) == [line] + Lines(rest)
  {
    var stem := if e.CRLF? then line + "\r" else line;
    var text := line + EolText(e) + rest;
    assert '\n' !in stem;
    assert text == stem + ['\n'] + rest;
    IndexOfConcat(stem, '\n', rest);
    assert text[..|stem|] == stem && text[|stem| + 1..] == rest;
    assert stem[..|line|] == line;
  }

  /** A last line that lacks its LF, with a CR or without. */
  lemma LinesLast(line: string, cr: bool)
    requires OneLine(line) && (cr || line != "")
    ensures Lines(if cr then line + "\r" else line) == [line]
  {
    var text := if cr then line + "\r" else line;
    assert '\n' !in text && IndexOf(text, '\n') == |text|;
    if cr {
      assert text[..|line|] == line;
    }
  }

  lemma FileTextLast(line: string, e: Eol, tail: Tail)
    requires !tail.Ended?
    ensures FileText([line], [e], tail) == if tail.OpenCR? then line + "\r" else line
  {
  }

  lemma FileTextFirst(lines: seq<string>, eols: seq<Eol>, tail: Tail)
    requires |lines| == |eols| && lines != [] && (|lines| == 1 ==> tail.Ended?)
    ensures FileText(lines, eols, tail) == lines[0] + EolText(eols[0]) + FileText(lines[1..], eols[1..], tail)
  {
    hide EolText;
  }

  lemma NoLines(tail: Tail)
    ensures Lines(FileText([], [], tail)) == []
  {
  }

  lemma {:induction false} LinesOfFile(lines: seq<string>, eols: seq<Eol>, tail: Tail)
    requires |lines| == |eols| && forall i :: 0 <= i < |lines| ==> OneLine(lines[i])
    requires lines != [] && lines[|lines| - 1] == "" ==> !tail.Open?
    ensures Lines(FileText(lines, eols, tail)) == lines
    decreases |lines|
  {
    hide Lines, FileText, OneLine, EolText;
    if lines == [] {
      NoLines(tail);
    } else if |lines| == 1 && !tail.Ended? {
      assert lines == [lines[0]] && eols == [eols[0]];
      FileTextLast(lines[0], eols[0], tail);
      LinesLast(lines[0], tail.OpenCR?);
    } else {
      FileTextFirst(lines, eols, tail);
      LinesCons(lines[0], eols[0], FileText(lines[1..], eols[1..], tail));
      LinesOfFile(lines[1..], eols[1..], tail);
      assert lines == [lines[0]] + lines[1..];
    }
  }

  lemma BeforeIndex(s: string, c: char)
    ensures c !in s[..IndexOf(s, c)]
  {
  }

  lemma StillNone(s: string, c: char)
    requires c !in s
    ensures c !in DropCR(s)
  {
  }

  lemma FirstLine(text: string)
    requires text != ""
    ensures var i := IndexOf(text, '\n'); var first := DropCR(text[..i]);
      '\n' !in first && Lines(text) == [first] + if i < |text| then Lines(text[i + 1..]) else []
  {
    var i := IndexOf(text, '\n');
    BeforeIndex(text, '\n');
    StillNone(text[..i], '\n');
    hide IndexOf, DropCR;
    assert text[..|text|] == text;
  }
  lemma {:induction false} LinesHaveNoNewline(text: string)
    ensures forall i :: 0 <= i < |Lines(text)| ==> '\n' !in Lines(text)[i]
    decreases |text|
  {
    if text != "" {
      var k := IndexOf(text, '\n');
      FirstLine(text);
      hide Lines, IndexOf, DropCR;
      if k < |text| {
        LinesHaveNoNewline(text[k + 1..]);
      }
    } else {
      assert Lines(text) == [];
    }
  }

  function PrintAll(items: seq<Item>): seq<string> {
    seq(|items|, i requires 0 <= i < |items| => Print(items[i]))
  }

  /** Round trip: whatever blank lines, comments, `export ` prefixes, blanks, quote styles and line
      ends a file is printed with, parsing it gives the assignments in order with their lines. */
  lemma DotenvRoundTrip(items: seq<Item>, eols: seq<Eol>, tail: Tail)
    requires AllWellFormed(items) && Distinct(EntriesOf(items)) && |eols| == |items|
    requires items != [] && Print(items[|items| - 1]) == "" ==> !tail.Open?
    ensures Parse(Lines(FileText(PrintAll(items), eols, tail))) == Ok(EntriesOf(items))
  {
    hide Print, WellFormed, OneLine, Distinct, EntriesOf, FileText, Lines, Parse;
    forall i | 0 <= i < |items|
      ensures OneLine(PrintAll(items)[i])
    {
      PrintOneLine(items[i]);
    }
    LinesOfFile(PrintAll(items), eols, tail);
    ParsePrinted(items, PrintAll(items));
  }

  /** Any text is its lines with some line ends; a last line without one is not empty. */
  lemma {:induction false} FileOfLines(text: string) returns (eols: seq<Eol>, tail: Tail)
    ensures |eols| == |Lines(text)| && text == FileText(Lines(text), eols, tail)
    ensures Lines(text) != [] && Lines(text)[|Lines(text)| - 1] == "" ==> !tail.Open?
    decreases |text|
  {
    if text == "" {
      return [], Ended;
    }
    var i := IndexOf(text, '\n');
    if i == |text| {
      assert Lines(text) == [DropCR(text)];
      eols := [LF];
      if text[|text| - 1] == '\r' {
        tail := OpenCR;
        assert text == DropCR(text) + "\r";
      } else {
        tail := Open;
      }
    } else {
      var stem, rest := text[..i], text[i + 1..];
      assert text == stem + "\n" + rest;
      hide IndexOf;
      var e := if stem != "" && stem[|stem| - 1] == '\r' then CRLF else LF;
      eols, tail := FileOfLines(rest);
      LineAndRest(text, stem, rest, e, eols, tail);
      eols, tail := [e] + eols, if rest == "" then Ended else tail;
    }
  }

  lemma FileTextCons(line: string, lines: seq<string>, e: Eol, eols: seq<Eol>, tail: Tail)
    requires |lines| == |eols| && (lines == [] ==> tail.Ended?)
    ensures FileText([line] + lines, [e] + eols, tail) == line + EolText(e) + FileText(lines, eols, tail)
  {
    hide EolText;
    assert ([line] + lines)[1..] == lines && ([e] + eols)[1..] == eols;
  }

  lemma LineEnd(stem: string)
    ensures DropCR(stem) + EolText(if stem != "" && stem[|stem| - 1] == '\r' then CRLF else LF) == stem + "\n"
  {
  }

  lemma SomeLine(text: string)
    requires text != ""
    ensures Lines(text) != []
  {
  }

  lemma LineAndRest(text: string, stem: string, rest: string, e: Eol, eols: seq<Eol>, tail: Tail)
    requires text == stem + "\n" + rest && Lines(text) == [DropCR(stem)] + Lines(rest)
    requires e == (if stem != "" && stem[|stem| - 1] == '\r' then CRLF else LF)
    requires |eols| == |Lines(rest)| && rest == FileText(Lines(rest), eols, tail)
    ensures text == FileText(Lines(text), [e] + eols, if rest == "" then Ended else tail)
  {
    LineEnd(stem);
    if rest == "" {
      assert Lines(rest) == [] && FileText([], [], Ended) == "";
    } else {
      SomeLine(rest);
    }
    hide Lines, FileText, EolText, DropCR;
    FileTextCons(DropCR(stem), Lines(rest), e, eols, if rest == "" then Ended else tail);
  }

  /** Conversely, an accepted file is the print of the assignments read, among blank lines and
      comments, with some line ends. */
  lemma AcceptedFile(text: string) returns (items: seq<Item>, eols: seq<Eol>, tail: Tail)
    requires Parse(Lines(text)).Ok?
    ensures AllWellFormed(items) && Distinct(EntriesOf(items)) && Parse(Lines(text)) == Ok(EntriesOf(items))
    ensures |eols| == |items| && text == FileText(PrintAll(items), eols, tail)
    ensures items != [] && Print(items[|items| - 1]) == "" ==> !tail.Open?
  {
    hide Parse, Lines, Print, WellFormed, FileText, Distinct;
    LinesHaveNoNewline(text);
    items := AcceptedPrints(Lines(text));
    eols, tail := FileOfLines(text);
    assert PrintAll(items) == Lines(text);
  }

  /** Any value on one line without both kinds of quotes. */
  predicate Producible(v: string) {
    OneLine(v) && !('\'' in v && '"' in v)
  }

  predicate ReadFrom(text: string, v: string) {
    Parse(Lines(text)).Ok? && exists i :: 0 <= i < |Parse(Lines(text)).value| && Parse(Lines(text)).value[i].value == v
  }

  lemma {:induction false} EntriesProducible(items: seq<Item>)
    requires AllWellFormed(items)
    ensures forall i :: 0 <= i < |EntriesOf(items)| ==> Producible(EntriesOf(items)[i].value) && ValidKey(EntriesOf(items)[i].key)
    decreases |items|
  {
    if items != [] {
      EntriesProducible(items[..|items| - 1]);
    }
  }

  lemma ProducibleRead(v: string) returns (text: string)
    requires Producible(v)
    ensures ReadFrom(text, v)
  {
    var item := Assign("", None, "A", v, Quoted(if '\'' in v then '"' else '\''));
    text := FileText(PrintAll([item]), [LF], Ended);
    assert EntriesOf([item][..0]) == [];
    assert EntriesOf([item]) == [Entry("A", v, Line(1))];
    DotenvRoundTrip([item], [LF], Ended);
    assert Parse(Lines(text)).value[0].value == v;
  }

  /** The image of the parser: exactly the producible values can be read from some file. */
  lemma DotenvImage(v: string)
    ensures Producible(v) <==> exists text :: ReadFrom(text, v)
  {
    if Producible(v) {
      var text := ProducibleRead(v);
    }
    if text :| ReadFrom(text, v) {
      LinesHaveNoNewline(text);
      var items := AcceptedPrints(Lines(text));
      EntriesProducible(items);
    }
  }

  /** What the import relies on: keys are valid and distinct. */
  lemma DotenvKeys(text: string)
    requires Parse(Lines(text)).Ok?
    ensures Distinct(Parse(Lines(text)).value) && ValidKeys(Parse(Lines(text)).value)
  {
    LinesHaveNoNewline(text);
    var items := AcceptedPrints(Lines(text));
    EntriesProducible(items);
  }
}
