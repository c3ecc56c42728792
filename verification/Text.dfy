/** String operations of the standard library.  A string is a sequence of bytes, one per char. */
module Text {
  /** Position of the first occurrence of c, or |s|. */
  function IndexOf(s: string, c: char): (i: nat)
    ensures i <= |s|
    ensures i < |s| ==> s[i] == c
    ensures forall j :: 0 <= j < i ==> s[j] != c
  {
    if s == "" then 0 else if s[0] == c then 0 else 1 + IndexOf(s[1..], c)
  }

  predicate IsBlank(c: char) {
    c == ' ' || c == '\t'
  }

  predicate AllBlank(s: string) {
    forall i :: 0 <= i < |s| ==> IsBlank(s[i])
  }

  /** `strings.TrimLeft` with blank and tab. */
  function TrimLeft(s: string): (r: string)
    ensures r == "" || !IsBlank(r[0])
    ensures |r| <= |s| && s[|s| - |r|..] == r && AllBlank(s[..|s| - |r|])
  {
    if s != "" && IsBlank(s[0]) then TrimLeft(s[1..]) else s
  }

  lemma {:induction false} TrimLeftBlanks(ws: string, s: string)
    requires AllBlank(ws) && (s == "" || !IsBlank(s[0]))
    ensures TrimLeft(ws + s) == s
  {
    if ws == "" {
      assert ws + s == s;
    } else {
      assert (ws + s)[1..] == ws[1..] + s;
      TrimLeftBlanks(ws[1..], s);
    }
  }

  lemma IndexOfConcat(a: string, c: char, b: string)
    requires c !in a
    ensures IndexOf(a + [c] + b, c) == |a|
  {
    var s := a + [c] + b;
    assert forall i :: 0 <= i < |a| ==> s[i] == a[i];
    assert s[|a|] == c;
  }

  lemma Assoc(a: string, b: string, c: string)
    ensures a + b + c == a + (b + c)
    ensures (a + b + c)[|a| + |b|..] == c
  {
  }

  lemma Cut(s: string, k: nat)
    requires k <= |s|
    ensures s == s[..k] + s[k..]
  {
  }

  /** `strings.Split` with a one-byte separator. */
  function Split(s: string, c: char): (parts: seq<string>)
    ensures |parts| > 0 && forall i :: 0 <= i < |parts| ==> c !in parts[i]
    decreases |s|
  {
    var i := IndexOf(s, c);
    if i == |s| then [s] else [s[..i]] + Split(s[i + 1..], c)
  }

  function Join(parts: seq<string>, c: char): string
    requires |parts| > 0
  {
    if |parts| == 1 then parts[0] else parts[0] + [c] + Join(parts[1..], c)
  }

  lemma {:induction false} SplitJoin(parts: seq<string>, c: char)
    requires |parts| > 0 && forall i :: 0 <= i < |parts| ==> c !in parts[i]
    ensures Split(Join(parts, c), c) == parts
    decreases |parts|
  {
    if |parts| == 1 {
      assert IndexOf(parts[0], c) == |parts[0]|;
    } else {
      var rest := Join(parts[1..], c);
      var s := parts[0] + [c] + rest;
      IndexOfConcat(parts[0], c, rest);
      assert s[..|parts[0]|] == parts[0] && s[|parts[0]| + 1..] == rest;
      SplitJoin(parts[1..], c);
    }
  }

  lemma SplitUnfolds(s: string, c: char)
    ensures var i := IndexOf(s, c);
      if i == |s| then Split(s, c) == [s]
      else Split(s, c)[0] == s[..i] && Split(s, c)[1..] == Split(s[i + 1..], c) && |Split(s, c)| > 1
  {
    hide IndexOf;
  }

  lemma {:induction false} JoinSplit(s: string, c: char)
    ensures Join(Split(s, c), c) == s
    decreases |s|
  {
    hide IndexOf, Split;
    var i := IndexOf(s, c);
    SplitUnfolds(s, c);
    if i < |s| {
      JoinSplit(s[i + 1..], c);
      assert s == s[..i] + [c] + s[i + 1..];
    }
  }

  lemma {:induction false} JoinEnd(parts: seq<string>, c: char)
    requires |parts| > 0 && parts[|parts| - 1] != "" && c !in parts[|parts| - 1]
    ensures Join(parts, c) != "" && Join(parts, c)[|Join(parts, c)| - 1] != c
    decreases |parts|
  {
    if |parts| > 1 {
      JoinEnd(parts[1..], c);
    }
  }
}
