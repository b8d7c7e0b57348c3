/** The scanner that splits a CREATE TABLE body at its top-level commas. */
module SchemaSplitter {

  // ----- Text helpers

  /** The first position at or after k that holds c, or |s|. */
  function FindFrom(s: string, c: char, k: nat): (r: nat)
    requires k <= |s|
    ensures k <= r <= |s| && (r < |s| ==> s[r] == c)
    decreases |s| - k
  {
    if k == |s| || s[k] == c then k else FindFrom(s, c, k + 1)
  }

  lemma {:induction false} FindFromIs(s: string, c: char, k: nat, r: nat)
    requires k <= r <= |s| && (r < |s| ==> s[r] == c) && forall j :: k <= j < r ==> s[j] != c
    ensures FindFrom(s, c, k) == r
    decreases |s| - k
  {
    if k < r {
      FindFromIs(s, c, k + 1, r);
    }
  }

  lemma {:induction false} FindFromIsFirst(s: string, c: char, k: nat, j: nat)
    requires k <= |s| && k <= j < FindFrom(s, c, k)
    ensures s[j] != c
    decreases |s| - k
  {
    if k < j {
      FindFromIsFirst(s, c, k + 1, j);
    }
  }

  /** The end of the first closing comment mark at or after k, or |s|. */
  function BlockEnd(s: string, k: nat): (r: nat)
    requires k <= |s|
    ensures k <= r <= |s|
    decreases |s| - k
  {
    if |s| - k < 2 then |s| else if s[k] == '*' && s[k + 1] == '/' then k + 2 else BlockEnd(s, k + 1)
  }

  function TrimLeft(s: string, drop: set<char>): (r: string)
    ensures |r| <= |s|
  {
    if s != "" && s[0] in drop then TrimLeft(s[1..], drop) else s
  }

  function TrimRight(s: string, drop: set<char>): (r: string)
    ensures |r| <= |s|
  {
    if s != "" && s[|s| - 1] in drop then TrimRight(s[..|s| - 1], drop) else s
  }

  /** Python's `strip`. */
  function Strip(s: string, drop: set<char>): (r: string)
    ensures |r| <= |s|
  {
    TrimRight(TrimLeft(s, drop), drop)
  }

  predicate Trimmed(s: string, drop: set<char>) {
    s == "" || (s[0] !in drop && s[|s| - 1] !in drop)
  }

  /** What Python counts as white space. */
  predicate IsSpace(c: char) {
    || ('\t' <= c <= '\r') || ('\U{1C}' <= c <= ' ') || c == '\U{85}' || c == '\U{A0}' || c == '\U{1680}'
    || ('\U{2000}' <= c <= '\U{200A}') || c == '\U{2028}' || c == '\U{2029}' || c == '\U{202F}' || c == '\U{205F}' ||
      c == '\U{3000}'
  }

  const SPACES := set c: char | IsSpace(c)

  // ----- Lexemes

  predicate LineComment(s: string) { |s| >= 2 && s[0] == '-' && s[1] == '-' }

  predicate BlockComment(s: string) { |s| >= 2 && s[0] == '/' && s[1] == '*' }

  predicate Comment(s: string) { LineComment(s) || BlockComment(s) }

  predicate Opens(c: char) { c == '\'' || c == '"' || c == '`' || c == '[' }

  function Closer(c: char): char { if c == '[' then ']' else c }

  predicate Quoted(s: string) { s != "" && Opens(s[0]) }

  /** The closing quote is there. */
  predicate Closed(s: string) {
    Quoted(s) ==> FindFrom(s, Closer(s[0]), 1) < |s|
  }

  /** The length of the first lexeme: a comment, a quoted text or one character. */
  function Lexeme(s: string): (n: nat)
    requires s != ""
    ensures 1 <= n <= |s|
  {
    if LineComment(s) then FindFrom(s, '\n', 2)
    else if BlockComment(s) then BlockEnd(s, 2)
    else if Quoted(s) then (if Closed(s) then FindFrom(s, Closer(s[0]), 1) + 1 else |s|)
    else 1
  }

  function Deeper(depth: int, c: char): int {
    if c == '(' then depth + 1 else if c == ')' then depth - 1 else depth
  }

  /** The definitions in s, when `depth` parentheses are open and `buf` was already read of the first. */
  function Split(s: string, depth: int, buf: string): seq<string>
    decreases |s|
  {
    if s == "" then (if Strip(buf, SPACES) == "" then [] else [Strip(buf, SPACES)])
    else
      var n := Lexeme(s);
      if Comment(s) then Split(s[n..], depth, buf)
      else if s[0] == ',' && depth == 0 then [Strip(buf, SPACES)] + Split(s[n..], 0, "")
      else Split(s[n..], Deeper(depth, s[0]), buf + s[..n])
  }

  // ----- The scanner

  /** Copies a quoted text, up to its closing quote or the end. */
  method CopyQuoted(body: string, start: nat, buf: string) returns (i: nat, out: string)
    requires start < |body| && Opens(body[start])
    ensures start < i <= |body|
    ensures i == start + Lexeme(body[start..]) && out == buf + body[start..i]
  {
    var close := Closer(body[start]);
    ghost var s := body[start..];
    i, out := start + 1, buf + [body[start]];
    while i < |body|
      invariant start < i <= |body| && out == buf + body[start..i]
      invariant forall j :: 1 <= j < i - start ==> s[j] != close
    {
      out := out + [body[i]];
      if body[i] == close {
        FindFromIs(s, close, 1, i - start);
        i := i + 1;
        return;
      }
      i := i + 1;
    }
    FindFromIs(s, close, 1, |s|);
  }

  method SkipLine(body: string, start: nat) returns (i: nat)
    requires start < |body| && LineComment(body[start..])
    ensures start < i <= |body| && i == start + Lexeme(body[start..])
  {
    ghost var s := body[start..];
    i := start;
    while i < |body| && body[i] != '\n'
      invariant start <= i <= |body|
      invariant forall j :: 0 <= j < i - start ==> s[j] != '\n'
    {
      i := i + 1;
    }
    assert s[0] == '-' && s[1] == '-' && (i < |body| ==> s[i - start] == '\n');
    FindFromIs(s, '\n', 2, i - start);
  }

  lemma QuoteStep(body: string, i: nat, end: nat, depth: int, buf: string, out: string)
    requires i < |body| && !Comment(body[i..]) && Opens(body[i])
    requires end == i + Lexeme(body[i..]) <= |body| && out == buf + body[i..end]
    ensures Split(body[i..], depth, buf) == Split(body[end..], depth, out)
  {
    QuoteRead(body[i..], depth, buf);
    assert body[i..][end - i..] == body[end..] && body[i..][..end - i] == body[i..end];
  }

  lemma QuoteRead(s: string, depth: int, buf: string)
    requires s != "" && !Comment(s) && Opens(s[0])
    ensures Split(s, depth, buf) == Split(s[Lexeme(s)..], depth, buf + s[..Lexeme(s)])
  {
    assert Deeper(depth, s[0]) == depth;
  }

  lemma PlainStep(body: string, i: nat, depth: int, buf: string)
    requires i < |body| && !Comment(body[i..]) && !Opens(body[i]) && !(body[i] == ',' && depth == 0)
    ensures Split(body[i..], depth, buf) == Split(body[i + 1..], Deeper(depth, body[i]), buf + [body[i]])
  {
    assert body[i..][1..] == body[i + 1..] && body[i..][..1] == [body[i]];
  }

  lemma CommaStep(body: string, i: nat, buf: string)
    requires i < |body| && body[i] == ','
    ensures Split(body[i..], 0, buf) == [Strip(buf, SPACES)] + Split(body[i + 1..], 0, "")
  {
    CommaEnds(body[i + 1..], buf);
    assert body[i..] == "," + body[i + 1..];
  }

  method SkipComment(body: string, start: nat, ghost depth: int, ghost buf: string) returns (i: nat)
    requires start < |body| && Comment(body[start..])
    ensures start < i <= |body|
    ensures Split(body[start..], depth, buf) == Split(body[i..], depth, buf)
  {
    if body[start] == '-' {
      i := SkipLine(body, start);
    } else {
      i := start + BlockEnd(body[start..], 2);
    }
  }

  /** One lexeme that is neither a comment nor a top-level comma: it is read as it stands. */
  method ReadOne(body: string, start: nat, open: int, read: string) returns (i: nat, depth: int, buf: string)
    requires start < |body| && !Comment(body[start..]) && !(body[start] == ',' && open == 0)
    ensures start < i <= |body|
    ensures Split(body[start..], open, read) == Split(body[i..], depth, buf)
  {
    if Opens(body[start]) {
      i, buf := CopyQuoted(body, start, read);
      depth := open;
      QuoteStep(body, start, i, open, read, buf);
    } else {
      i, depth, buf := start + 1, Deeper(open, body[start]), read + [body[start]];
      PlainStep(body, start, open, read);
    }
  }

  /** Splits a CREATE TABLE body at its top-level commas. */
  method SplitTopLevel(body: string) returns (parts: seq<string>)
    ensures parts == Split(body, 0, "")
  {
    var buf, depth, i := "", 0, 0;
    parts := [];
    assert body[0..] == body;
    while i < |body|
      invariant 0 <= i <= |body|
      invariant parts + Split(body[i..], depth, buf) == Split(body, 0, "")
      decreases |body| - i
    {
      if Comment(body[i..]) {
        i := SkipComment(body, i, depth, buf);
      } else if body[i] == ',' && depth == 0 {
        CommaStep(body, i, buf);
        parts, i, buf := parts + [Strip(buf, SPACES)], i + 1, "";
      } else {
        i, depth, buf := ReadOne(body, i, depth, buf);
      }
    }
    assert body[|body|..] == "";
    var tail := Strip(buf, SPACES);
    if tail != "" {
      parts := parts + [tail];
    }
  }

  // ----- Round trip

  function Join(ds: seq<string>): string {
    if ds == [] then "" else if |ds| == 1 then ds[0] else ds[0] + "," + Join(ds[1..])
  }

  /** Scanning s from `depth` meets no comment, no unclosed quote and no top-level comma, and ends at depth 0. */
  predicate Whole(s: string, depth: int)
    decreases |s|
  {
    if s == "" then depth == 0
    else !Comment(s) && Closed(s) && !(s[0] == ',' && depth == 0) && Whole(s[Lexeme(s)..], Deeper(depth, s[0]))
  }

  /** The same, but the end may come inside quotes or at any depth. */
  predicate Bare(s: string, depth: int)
    decreases |s|
  {
    s == "" || (!Comment(s) && !(s[0] == ',' && depth == 0) && Bare(s[Lexeme(s)..], Deeper(depth, s[0])))
  }

  /** A comma after x does not change how x is read. */
  lemma LexemeIsLocal(x: string, t: string)
    requires x != ""
    ensures var s := x + "," + t;
      && s[0] == x[0] && (Comment(s) <==> Comment(x)) && (Quoted(s) <==> Quoted(x))
      && (!Comment(x) && Closed(x) ==> Closed(s) && Lexeme(s) == Lexeme(x))
      && (!Comment(s) && Lexeme(s) <= |x| && Closed(s) ==> Closed(x))
  {
    var s := x + "," + t;
    if Quoted(x) {
      var q := FindFrom(x, Closer(x[0]), 1);
      var r := FindFrom(s, Closer(x[0]), 1);
      if q < |x| {
        forall j | 1 <= j < q
          ensures s[j] != Closer(x[0])
        {
          FindFromIsFirst(x, Closer(x[0]), 1, j);
        }
        FindFromIs(s, Closer(x[0]), 1, q);
      } else if r < |x| {
        FindFromIsFirst(x, Closer(x[0]), 1, r);
      }
    }
  }

  lemma {:induction false} WholeStopsAtComma(x: string, t: string, depth: int, buf: string)
    requires Whole(x, depth)
    ensures Split(x + "," + t, depth, buf) == [Strip(buf + x, SPACES)] + Split(t, 0, "")
    decreases |x|
  {
    if x == "" {
      assert buf + x == buf && x + "," + t == "," + t;
    } else {
      LexemeIsLocal(x, t);
      var n, s := Lexeme(x), x + "," + t;
      calc {
        Split(s, depth, buf);
        { assert s[n..] == x[n..] + "," + t && s[..n] == x[..n]; }
        Split(x[n..] + "," + t, Deeper(depth, x[0]), buf + x[..n]);
        { WholeStopsAtComma(x[n..], t, Deeper(depth, x[0]), buf + x[..n]); }
        [Strip((buf + x[..n]) + x[n..], SPACES)] + Split(t, 0, "");
        { assert (buf + x[..n]) + x[n..] == buf + x; }
        [Strip(buf + x, SPACES)] + Split(t, 0, "");
      }
    }
  }

  lemma {:induction false} BareIsOne(x: string, depth: int, buf: string)
    requires Bare(x, depth)
    ensures Split(x, depth, buf) == if Strip(buf + x, SPACES) == "" then [] else [Strip(buf + x, SPACES)]
    decreases |x|
  {
    if x == "" {
      assert buf + x == buf;
    } else {
      var n := Lexeme(x);
      BareIsOne(x[n..], Deeper(depth, x[0]), buf + x[..n]);
      assert (buf + x[..n]) + x[n..] == buf + x;
    }
  }

  /** The characters of all definitions, and one separator for each. */
  function Total(ds: seq<string>): nat {
    if ds == [] then 0 else |ds[0]| + 1 + Total(ds[1..])
  }

  lemma {:induction false} JoinLength(ds: seq<string>)
    requires ds != []
    ensures |Join(ds)| + 1 == Total(ds)
  {
    if |ds| > 1 {
      JoinLength(ds[1..]);
    }
  }

  lemma {:induction false} SplitLosesOrKeeps(s: string, depth: int, buf: string)
    ensures Total(Split(s, depth, buf)) <= |buf| + |s| + 1
    decreases |s|
  {
    if s != "" {
      var n := Lexeme(s);
      if Comment(s) {
        SplitLosesOrKeeps(s[n..], depth, buf);
      } else if s[0] == ',' && depth == 0 {
        SplitLosesOrKeeps(s[n..], 0, "");
        var parts := Split(s[n..], 0, "");
        assert ([Strip(buf, SPACES)] + parts)[1..] == parts;
      } else {
        SplitLosesOrKeeps(s[n..], Deeper(depth, s[0]), buf + s[..n]);
      }
    }
  }

  /** s starts with x, a comma and t; x is whole and is the rest of the first part. */
  ghost predicate FirstPart(s: string, depth: int, buf: string, x: string, t: string) {
    && s == x + "," + t && Whole(x, depth) && Trimmed(buf + x, SPACES)
    && Split(s, depth, buf) == [buf + x] + Split(t, 0, "")
  }

  ghost predicate OnlyPart(s: string, depth: int, buf: string) {
    Bare(s, depth) && Trimmed(buf + s, SPACES) && Split(s, depth, buf) == [buf + s]
  }

  /** A split that drops nothing shows where its first part ends. */
  lemma {:induction false} TightSplit(s: string, depth: int, buf: string)
    requires Total(Split(s, depth, buf)) == |buf| + |s| + 1
    ensures OnlyPart(s, depth, buf) || exists x, t :: FirstPart(s, depth, buf, x, t)
    decreases |s|
  {
    if s == "" {
      assert buf + s == buf;
    } else if s[0] == ',' && depth == 0 {
      TightComma(s, buf);
    } else {
      var n := Lexeme(s);
      var d, b := Deeper(depth, s[0]), buf + s[..n];
      TightHasNoComment(s, depth, buf);
      TightSplit(s[n..], d, b);
      if OnlyPart(s[n..], d, b) {
        OnlyStep(s, depth, buf);
      } else {
        var x, t :| FirstPart(s[n..], d, b, x, t);
        TightStep(s, depth, buf, x, t);
      }
    }
  }

  lemma {:induction false} TightHasNoComment(s: string, depth: int, buf: string)
    requires s != "" && !(s[0] == ',' && depth == 0) && Total(Split(s, depth, buf)) == |buf| + |s| + 1
    ensures !Comment(s)
    ensures Total(Split(s[Lexeme(s)..], Deeper(depth, s[0]), buf + s[..Lexeme(s)])) == |buf| + |s| + 1
  {
    if Comment(s) {
      SplitLosesOrKeeps(s[Lexeme(s)..], depth, buf);
    }
  }

  lemma OnlyStep(s: string, depth: int, buf: string)
    requires s != "" && !Comment(s) && !(s[0] == ',' && depth == 0)
    requires OnlyPart(s[Lexeme(s)..], Deeper(depth, s[0]), buf + s[..Lexeme(s)])
    ensures OnlyPart(s, depth, buf)
  {
    var n := Lexeme(s);
    assert (buf + s[..n]) + s[n..] == buf + s;
  }

  lemma {:induction false} TightComma(s: string, buf: string)
    requires s != "" && s[0] == ',' && Total(Split(s, 0, buf)) == |buf| + |s| + 1
    ensures FirstPart(s, 0, buf, "", s[1..])
  {
    SplitLosesOrKeeps(s[1..], 0, "");
    var parts := Split(s[1..], 0, "");
    assert ([Strip(buf, SPACES)] + parts)[1..] == parts;
    assert buf + "" == buf && s == "" + "," + s[1..];
  }

  lemma TightStep(s: string, depth: int, buf: string, x: string, t: string)
    requires s != "" && !Comment(s) && !(s[0] == ',' && depth == 0)
    requires FirstPart(s[Lexeme(s)..], Deeper(depth, s[0]), buf + s[..Lexeme(s)], x, t)
    ensures FirstPart(s, depth, buf, s[..Lexeme(s)] + x, t)
  {
    var n := Lexeme(s);
    var y := s[..n] + x;
    assert s == s[..n] + s[n..];
    assert s == y + "," + t;
    assert (buf + s[..n]) + x == buf + y;
    LexemeIsLocal(y, t);
    assert y[n..] == x;
  }

  /** What the definitions must be for joining and splitting to give them back: every one trimmed and free of
      comments and top-level commas, the last one not empty, and each but the last closed and balanced. */
  predicate Separable(ds: seq<string>) {
    ds == [] ||
    (&& Trimmed(ds[0], SPACES)
     && if |ds| == 1 then ds[0] != "" && Bare(ds[0], 0) else Whole(ds[0], 0) && Separable(ds[1..]))
  }

  lemma {:induction false} SeparableRoundTrip(ds: seq<string>)
    requires Separable(ds)
    ensures Split(Join(ds), 0, "") == ds
  {
    if ds != [] {
      assert "" + ds[0] == ds[0];
      if |ds| == 1 {
        BareIsOne(ds[0], 0, "");
      } else {
        WholeStopsAtComma(ds[0], Join(ds[1..]), 0, "");
        SeparableRoundTrip(ds[1..]);
      }
    }
  }

  lemma {:induction false} RoundTripIsSeparable(ds: seq<string>)
    requires Split(Join(ds), 0, "") == ds
    ensures Separable(ds)
  {
    if ds != [] {
      JoinLength(ds);
      var s := Join(ds);
      TightSplit(s, 0, "");
      if OnlyPart(s, 0, "") {
        assert "" + s == s;
      } else {
        var x, t :| FirstPart(s, 0, "", x, t);
        assert "" + x == x && ds[0] == x;
        assert ds[1..] == Split(t, 0, "");
        if |ds| == 1 {
          assert false;
        } else {
          assert s == ds[0] + "," + Join(ds[1..]);
          assert t == s[|x| + 1..] && Join(ds[1..]) == s[|x| + 1..];
          RoundTripIsSeparable(ds[1..]);
        }
      }
    }
  }

  /** For every list of texts: joining with commas and splitting gives the list back exactly if it is separable. */
  lemma JoinSplitIff(ds: seq<string>)
    ensures Split(Join(ds), 0, "") == ds <==> Separable(ds)
  {
    if Separable(ds) {
      SeparableRoundTrip(ds);
    } else if Split(Join(ds), 0, "") == ds {
      RoundTripIsSeparable(ds);
    }
  }

  // ----- Texts with comments

  /** Text of a definition: single characters, quoted texts, parenthesized texts, and comments to the end of the
      line or between marks. */
  datatype Text = End
                | Plain(c: char, rest: Text)
                | Quote(open: char, text: string, rest: Text)
                | Parens(inner: Text, rest: Text)
                | Line(note: string, rest: Text)
                | Block(note: string, rest: Text)

  function Print(t: Text): string {
    match t
    case End => ""
    case Plain(c, rest) => [c] + Print(rest)
    case Quote(open, text, rest) => [open] + text + [Closer(open)] + Print(rest)
    case Parens(inner, rest) => "(" + Print(inner) + ")" + Print(rest)
    case Line(note, rest) => "--" + note + "\n" + Print(rest)
    case Block(note, rest) => "/*" + note + "*/" + Print(rest)
  }

  /** The text without its comments; the line break that ends a line comment stays. */
  function Kept(t: Text): string {
    match t
    case End => ""
    case Plain(c, rest) => [c] + Kept(rest)
    case Quote(open, text, rest) => [open] + text + [Closer(open)] + Kept(rest)
    case Parens(inner, rest) => "(" + Kept(inner) + ")" + Kept(rest)
    case Line(_, rest) => "\n" + Kept(rest)
    case Block(_, rest) => Kept(rest)
  }

  predicate StartsComment(c: char, rest: Text) {
    || (c == '-' && (rest.Line? || (rest.Plain? && rest.c == '-')))
    || (c == '/' && rest.Plain? && rest.c == '*')
  }

  predicate HoldsBlockEnd(s: string) {
    exists i :: 0 <= i < |s| - 1 && s[i] == '*' && s[i + 1] == '/'
  }

  predicate WellFormed(t: Text, nested: bool) {
    match t
    case End => true
    case Plain(c, rest) =>
      !Opens(c) && c != '(' && c != ')' && (c == ',' ==> nested) && !StartsComment(c, rest) && WellFormed(rest, nested)
    case Quote(open, text, rest) => Opens(open) && Closer(open) !in text && WellFormed(rest, nested)
    case Parens(inner, rest) => WellFormed(inner, true) && WellFormed(rest, nested)
    case Line(note, rest) => '\n' !in note && WellFormed(rest, nested)
    case Block(note, rest) => !HoldsBlockEnd(note) && WellFormed(rest, nested)
  }

  // ----- The scan passes over a text

  lemma SplitAt(s: string, n: nat, depth: int, buf: string)
    requires s != "" && !Comment(s) && !(s[0] == ',' && depth == 0) && n == Lexeme(s)
    ensures Split(s, depth, buf) == Split(s[n..], Deeper(depth, s[0]), buf + s[..n])
  {
  }

  lemma OneCharacter(c: char, t: string, depth: int, buf: string)
    requires !Opens(c) && !(c == ',' && depth == 0) && !Comment([c] + t)
    ensures Split([c] + t, depth, buf) == Split(t, Deeper(depth, c), buf + [c])
  {
    var s := [c] + t;
    SplitAt(s, 1, depth, buf);
    assert s[1..] == t && s[..1] == [c];
  }

  lemma OneQuote(open: char, text: string, t: string, depth: int, buf: string)
    requires Opens(open) && Closer(open) !in text
    ensures var q := [open] + text + [Closer(open)]; Split(q + t, depth, buf) == Split(t, depth, buf + q)
  {
    var q := [open] + text + [Closer(open)];
    var s := q + t;
    assert s[|text| + 1] == Closer(open);
    FindFromIs(s, Closer(open), 1, |text| + 1);
    SplitAt(s, |q|, depth, buf);
    assert s[|q|..] == t && s[..|q|] == q;
  }

  lemma OneLineComment(note: string, t: string, depth: int, buf: string)
    requires '\n' !in note
    ensures Split("--" + note + "\n" + t, depth, buf) == Split(t, depth, buf + "\n")
  {
    var s := "--" + note + "\n" + t;
    var n := |note| + 2;
    assert s[n] == '\n';
    FindFromIs(s, '\n', 2, n);
    assert s[n..] == "\n" + t;
    OneCharacter('\n', t, depth, buf);
  }

  lemma OneBlockComment(note: string, t: string, depth: int, buf: string)
    requires !HoldsBlockEnd(note)
    ensures Split("/*" + note + "*/" + t, depth, buf) == Split(t, depth, buf)
  {
    var s := "/*" + note + "*/" + t;
    var n := |note| + 2;
    assert s[n] == '*' && s[n + 1] == '/';
    forall j | 2 <= j < n
      ensures !(s[j] == '*' && s[j + 1] == '/')
    {
      assert s[j] == note[j - 2];
      assert j + 1 < n ==> s[j + 1] == note[j - 1];
    }
    BlockEndIs(s, 2, n);
    assert s[n + 2..] == t;
  }

  lemma {:induction false} BlockEndIs(s: string, k: nat, r: nat)
    requires k <= r && r + 2 <= |s| && s[r] == '*' && s[r + 1] == '/'
    requires forall j :: k <= j < r ==> !(s[j] == '*' && s[j + 1] == '/')
    ensures BlockEnd(s, k) == r + 2
    decreases r - k
  {
    if k < r {
      BlockEndIs(s, k + 1, r);
    }
  }

  /** What a text may be followed by: the end, a closing parenthesis or a comma. */
  predicate Ends(k: string) {
    k == "" || k[0] == ')' || k[0] == ','
  }

  /** Scanning a well-formed text adds it, without its comments, to what was read. */
  lemma {:induction false} PrintedSplits(t: Text, k: string, depth: nat, buf: string)
    requires WellFormed(t, depth > 0) && Ends(k)
    ensures Split(Print(t) + k, depth, buf) == Split(k, depth, buf + Kept(t))
    decreases t, 1
  {
    match t
    case End => assert Print(t) + k == k && buf + "" == buf;
    case Plain(_, _) => PlainSplits(t, k, depth, buf);
    case Quote(_, _, _) => QuoteSplits(t, k, depth, buf);
    case Parens(_, _) => ParensSplit(t, k, depth, buf);
    case Line(_, _) => LineSplits(t, k, depth, buf);
    case Block(_, _) => BlockSplits(t, k, depth, buf);
  }

  lemma {:induction false} PlainSplits(t: Text, k: string, depth: nat, buf: string)
    requires t.Plain? && WellFormed(t, depth > 0) && Ends(k)
    ensures Split(Print(t) + k, depth, buf) == Split(k, depth, buf + Kept(t))
    decreases t, 0
  {
    var c, rest := t.c, t.rest;
    NoCommentStarts(c, rest, depth > 0, k);
    Regroup([c], Print(rest), k, buf, Kept(rest));
    OneCharacter(c, Print(rest) + k, depth, buf);
    PrintedSplits(rest, k, depth, buf + [c]);
  }

  lemma NoCommentStarts(c: char, rest: Text, nested: bool, k: string)
    requires !StartsComment(c, rest) && WellFormed(rest, nested) && Ends(k)
    ensures !Comment([c] + (Print(rest) + k))
  {
    var s := [c] + (Print(rest) + k);
    if rest.End? {
      assert Print(rest) + k == k;
    } else {
      assert s[1] == Print(rest)[0];
    }
  }

  lemma {:induction false} QuoteSplits(t: Text, k: string, depth: nat, buf: string)
    requires t.Quote? && WellFormed(t, depth > 0) && Ends(k)
    ensures Split(Print(t) + k, depth, buf) == Split(k, depth, buf + Kept(t))
    decreases t, 0
  {
    var q, rest := [t.open] + t.text + [Closer(t.open)], t.rest;
    Regroup(q, Print(rest), k, buf, Kept(rest));
    OneQuote(t.open, t.text, Print(rest) + k, depth, buf);
    PrintedSplits(rest, k, depth, buf + q);
  }

  lemma {:induction false} LineSplits(t: Text, k: string, depth: nat, buf: string)
    requires t.Line? && WellFormed(t, depth > 0) && Ends(k)
    ensures Split(Print(t) + k, depth, buf) == Split(k, depth, buf + Kept(t))
    decreases t, 0
  {
    var comment, rest := "--" + t.note + "\n", t.rest;
    Regroup(comment, Print(rest), k, buf, Kept(rest));
    Regroup("\n", Print(rest), k, buf, Kept(rest));
    OneLineComment(t.note, Print(rest) + k, depth, buf);
    PrintedSplits(rest, k, depth, buf + "\n");
  }

  lemma {:induction false} BlockSplits(t: Text, k: string, depth: nat, buf: string)
    requires t.Block? && WellFormed(t, depth > 0) && Ends(k)
    ensures Split(Print(t) + k, depth, buf) == Split(k, depth, buf + Kept(t))
    decreases t, 0
  {
    var comment, rest := "/*" + t.note + "*/", t.rest;
    Regroup(comment, Print(rest), k, buf, Kept(rest));
    OneBlockComment(t.note, Print(rest) + k, depth, buf);
    PrintedSplits(rest, k, depth, buf);
  }

  lemma Regroup(a: string, b: string, k: string, buf: string, c: string)
    ensures (a + b) + k == a + (b + k) && (buf + a) + c == buf + (a + c)
  {
  }

  lemma {:induction false} ParensSplit(t: Text, k: string, depth: nat, buf: string)
    requires t.Parens? && WellFormed(t, depth > 0) && Ends(k)
    ensures Split(Print(t) + k, depth, buf) == Split(k, depth, buf + Kept(t))
    decreases t, 0
  {
    var inner, rest := t.inner, t.rest;
    var after, read := ")" + (Print(rest) + k), buf + "(" + Kept(inner);
    calc {
      Split(Print(t) + k, depth, buf);
      { ParensPrint(inner, rest, k); }
      Split("(" + (Print(inner) + after), depth, buf);
      { OneCharacter('(', Print(inner) + after, depth, buf); }
      Split(Print(inner) + after, depth + 1, buf + "(");
      { PrintedSplits(inner, after, depth + 1, buf + "("); }
      Split(after, depth + 1, read);
      { OneCharacter(')', Print(rest) + k, depth + 1, read); }
      Split(Print(rest) + k, depth, read + ")");
      { PrintedSplits(rest, k, depth, read + ")"); }
      Split(k, depth, read + ")" + Kept(rest));
      { ParensKept(inner, rest, buf); }
      Split(k, depth, buf + Kept(t));
    }
  }

  lemma ParensPrint(inner: Text, rest: Text, k: string)
    ensures Print(Parens(inner, rest)) + k == "(" + (Print(inner) + (")" + (Print(rest) + k)))
  {
  }

  lemma ParensKept(inner: Text, rest: Text, buf: string)
    ensures buf + "(" + Kept(inner) + ")" + Kept(rest) == buf + Kept(Parens(inner, rest))
  {
  }

  // ----- Splitting texts with comments

  function Prints(ts: seq<Text>): seq<string> {
    if ts == [] then [] else [Print(ts[0])] + Prints(ts[1..])
  }

  /** Each text without its comments, stripped; an empty last one is dropped. */
  function Parts(ts: seq<Text>): seq<string> {
    if ts == [] then []
    else
      var part := Strip(Kept(ts[0]), SPACES);
      if |ts| == 1 && part == "" then [] else [part] + Parts(ts[1..])
  }

  /** Joining texts with commas and splitting gives each of them, stripped and without its comments, whatever the
      comments hold. */
  lemma {:induction false} CommentsAreSkipped(ts: seq<Text>)
    requires forall i :: 0 <= i < |ts| ==> WellFormed(ts[i], false)
    ensures Split(Join(Prints(ts)), 0, "") == Parts(ts)
  {
    if ts != [] {
      var first, rest := Print(ts[0]), Prints(ts[1..]);
      assert "" + Kept(ts[0]) == Kept(ts[0]);
      if |ts| == 1 {
        PrintedSplits(ts[0], "", 0, "");
        assert first + "" == first && Join([first]) == first;
      } else {
        assert ([first] + rest)[1..] == rest;
        PrintedSplits(ts[0], "," + Join(rest), 0, "");
        CommaEnds(Join(rest), Kept(ts[0]));
        assert first + "," + Join(rest) == first + ("," + Join(rest));
        CommentsAreSkipped(ts[1..]);
      }
    }
  }

  lemma CommaEnds(t: string, buf: string)
    ensures Split("," + t, 0, buf) == [Strip(buf, SPACES)] + Split(t, 0, "")
  {
    assert ("," + t)[1..] == t;
  }

  // ----- Definitions without comments

  predicate NoComments(t: Text) {
    match t
    case End => true
    case Plain(_, rest) => NoComments(rest)
    case Quote(_, _, rest) => NoComments(rest)
    case Parens(inner, rest) => NoComments(inner) && NoComments(rest)
    case Line(_, _) => false
    case Block(_, _) => false
  }

  lemma {:induction false} WithoutCommentsAllIsKept(t: Text)
    requires NoComments(t)
    ensures Kept(t) == Print(t)
  {
    if t.Parens? {
      WithoutCommentsAllIsKept(t.inner);
    }
    if !t.End? {
      WithoutCommentsAllIsKept(t.rest);
    }
  }

  /** t spells the definition d. */
  predicate Spells(t: Text, d: string) {
    WellFormed(t, false) && NoComments(t) && Print(t) == d
  }

  /** A definition: not empty, trimmed, its quotes closed and parentheses balanced, no comment, and commas only
      inside quotes or parentheses. */
  ghost predicate Definition(d: string) {
    d != "" && Trimmed(d, SPACES) && exists t :: Spells(t, d)
  }

  /** Any list of definitions survives joining and splitting. */
  lemma {:induction false} DefinitionsRoundTrip(ds: seq<string>)
    requires forall i :: 0 <= i < |ds| ==> Definition(ds[i])
    ensures Split(Join(ds), 0, "") == ds
  {
    if ds != [] {
      assert Definition(ds[0]);
      if |ds| == 1 {
        DefinitionStopsAt(ds[0], "");
        assert ds[0] + "" == ds[0];
      } else {
        var rest := Join(ds[1..]);
        DefinitionStopsAt(ds[0], "," + rest);
        CommaEnds(rest, ds[0]);
        assert ds[0] + "," + rest == ds[0] + ("," + rest);
        DefinitionsRoundTrip(ds[1..]);
      }
    }
  }

  lemma DefinitionStopsAt(d: string, k: string)
    requires Definition(d) && Ends(k)
    ensures Split(d + k, 0, "") == Split(k, 0, d) && Strip(d, SPACES) == d
  {
    var t :| Spells(t, d);
    PrintedSplits(t, k, 0, "");
    WithoutCommentsAllIsKept(t);
    StripKeepsTrimmed(d, SPACES);
    assert "" + d == d;
  }

  lemma StripKeepsTrimmed(d: string, drop: set<char>)
    requires Trimmed(d, drop)
    ensures Strip(d, drop) == d
  {
  }
}
