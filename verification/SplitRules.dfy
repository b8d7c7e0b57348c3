/** The splitter on any text at all: what each piece of it does, said without the scanner's searches. */
module SplitRules {
  import opened SchemaSplitter
  import opened ColumnNames

  // ----- Pieces

  /** What a piece of the text is to the splitter. */
  datatype Kind = Note | Quoted | Separator | Opening | Closing | Other

  /** The mark at i. */
  predicate At(s: string, i: nat, mark: string) {
    i + |mark| <= |s| && s[i..i + |mark|] == mark
  }

  /** From its two dashes to the end of the line. */
  ghost predicate LineNote(s: string, n: nat) {
    At(s, 0, "--") && n <= |s| && '\n' !in s[..n] && (n < |s| ==> s[n] == '\n')
  }

  /** From the opening mark through the first closing mark behind it, or to the end. */
  ghost predicate BlockNote(s: string, n: nat) {
    At(s, 0, "/*") && 2 <= n <= |s| &&
    if exists i: nat :: i >= 2 && At(s, i, "*/") then
      n >= 4 && At(s, n - 2, "*/") && forall i: nat :: 2 <= i < n - 2 ==> !At(s, i, "*/")
    else n == |s|
  }

  /** A quote is closed by itself, a bracket by its counterpart. */
  ghost predicate Pair(open: char, close: char) {
    (open == close && open in {'\'', '"', '`'}) || (open == '[' && close == ']')
  }

  /** From the opening quote through the first closing one behind it, or to the end. */
  ghost predicate QuotedText(s: string, n: nat, open: char, close: char) {
    Pair(open, close) && 1 <= n <= |s| && s[0] == open &&
    if close in s[1..] then n >= 2 && s[n - 1] == close && close !in s[1..n - 1] else n == |s|
  }

  ghost predicate IsQuoted(s: string, n: nat) {
    exists open, close :: QuotedText(s, n, open, close)
  }

  /** The first piece of s has n characters and is of this kind. */
  ghost predicate FirstPiece(s: string, depth: int, n: nat, kind: Kind) {
    1 <= n <= |s| &&
    match kind
    case Note => LineNote(s, n) || BlockNote(s, n)
    case Quoted => IsQuoted(s, n)
    case Separator => n == 1 && s[0] == ',' && depth == 0
    case Opening => n == 1 && s[0] == '('
    case Closing => n == 1 && s[0] == ')'
    case Other =>
      && n == 1 && !At(s, 0, "--") && !At(s, 0, "/*") && s[0] !in {'\'', '"', '`', '[', '(', ')'}
      && (s[0] == ',' ==> depth != 0)
  }

  function KindOf(s: string, depth: int): Kind
    requires s != ""
  {
    if Comment(s) then Note else if Opens(s[0]) then Quoted
    else if s[0] == ',' && depth == 0 then Separator
    else if s[0] == '(' then Opening else if s[0] == ')' then Closing else Other
  }

  lemma MarkAt(s: string, i: nat, mark: string)
    requires |mark| == 2
    ensures At(s, i, mark) <==> i + 2 <= |s| && s[i] == mark[0] && s[i + 1] == mark[1]
  {
    if i + 2 <= |s| {
      assert s[i..i + 2] == [s[i], s[i + 1]] && mark == [mark[0], mark[1]];
    }
  }

  lemma LineNoteIs(s: string, n: nat)
    ensures LineNote(s, n) <==> LineComment(s) && n == Lexeme(s)
  {
    MarkAt(s, 0, "--");
    if LineComment(s) {
      var end := FindFrom(s, '\n', 2);
      forall j | 0 <= j < end
        ensures s[j] != '\n'
      {
        if j >= 2 {
          FindFromIsFirst(s, '\n', 2, j);
        }
      }
      if LineNote(s, n) {
        LineEnds(s, n, end);
      }
    }
  }

  lemma LineEnds(s: string, n: nat, end: nat)
    requires n <= |s| && '\n' !in s[..n] && (n < |s| ==> s[n] == '\n')
    requires end <= |s| && (forall j :: 0 <= j < end ==> s[j] != '\n') && (end < |s| ==> s[end] == '\n')
    ensures n == end
  {
    assert forall j :: 0 <= j < n ==> s[..n][j] == s[j];
  }

  /** n is behind the first closing mark at or after k, or the end. */
  ghost predicate EndsBlock(s: string, k: nat, n: nat) {
    if exists i: nat :: i >= k && At(s, i, "*/") then
      n >= k + 2 && At(s, n - 2, "*/") && forall i: nat :: k <= i < n - 2 ==> !At(s, i, "*/")
    else n == |s|
  }

  lemma {:induction false} BlockEndIs(s: string, k: nat)
    requires k <= |s|
    ensures EndsBlock(s, k, BlockEnd(s, k))
    decreases |s| - k
  {
    MarkAt(s, k, "*/");
    if |s| - k >= 2 && !At(s, k, "*/") {
      BlockEndIs(s, k + 1);
      LaterMark(s, k, BlockEnd(s, k + 1));
    }
  }

  lemma LaterMark(s: string, k: nat, n: nat)
    requires !At(s, k, "*/") && EndsBlock(s, k + 1, n)
    ensures EndsBlock(s, k, n)
  {
    if i: nat :| i >= k && At(s, i, "*/") {
      assert i >= k + 1;
    }
  }

  lemma BlockNoteIs(s: string, n: nat)
    ensures BlockNote(s, n) <==> BlockComment(s) && n == Lexeme(s)
  {
    MarkAt(s, 0, "/*");
    if BlockComment(s) {
      BlockEndIs(s, 2);
      var end := BlockEnd(s, 2);
      if BlockNote(s, n) && exists i: nat :: i >= 2 && At(s, i, "*/") {
        assert n - 2 >= 2 && end - 2 >= 2;
      }
    }
  }

  lemma PairIs(open: char, close: char)
    ensures Pair(open, close) <==> Opens(open) && close == Closer(open)
  {
  }

  lemma QuotedIs(s: string, n: nat)
    requires s != "" && !Comment(s)
    ensures IsQuoted(s, n) <==> Opens(s[0]) && n == Lexeme(s)
  {
    var close := Closer(s[0]);
    PairIs(s[0], close);
    if Opens(s[0]) {
      var end := FindFrom(s, close, 1);
      ClosesAt(s, close, end);
      if n == Lexeme(s) {
        assert QuotedText(s, n, s[0], close);
      }
    }
    forall open, other | QuotedText(s, n, open, other)
      ensures open == s[0] && Opens(open) && other == close && n == Lexeme(s)
    {
      PairIs(open, other);
      QuoteEnds(s, n, close);
    }
  }

  lemma ClosesAt(s: string, close: char, end: nat)
    requires s != "" && end == FindFrom(s, close, 1)
    ensures close in s[1..] <==> end < |s|
    ensures close !in s[1..end]
  {
    forall j | 1 <= j < end
      ensures s[j] != close
    {
      FindFromIsFirst(s, close, 1, j);
    }
    if end < |s| {
      assert s[1..][end - 1] == close;
    }
  }

  lemma QuoteEnds(s: string, n: nat, close: char)
    requires s != "" && QuotedText(s, n, s[0], close) && Opens(s[0]) && !Comment(s)
    ensures n == Lexeme(s)
  {
    var end := FindFrom(s, close, 1);
    PairIs(s[0], close);
    ClosesAt(s, close, end);
    assert n >= 2 ==> forall j :: 1 <= j < n - 1 ==> s[1..n - 1][j - 1] == s[j];
    assert forall j :: 1 <= j < end ==> s[1..end][j - 1] == s[j];
  }

  lemma FirstPieceIs(s: string, depth: int, n: nat, kind: Kind)
    requires s != ""
    ensures FirstPiece(s, depth, n, kind) <==> n == Lexeme(s) && kind == KindOf(s, depth)
  {
    MarkAt(s, 0, "--");
    MarkAt(s, 0, "/*");
    LineNoteIs(s, n);
    BlockNoteIs(s, n);
    if !Comment(s) {
      QuotedIs(s, n);
    }
  }

  // ----- The splitting

  /** t is s without the white space at its ends. */
  ghost predicate TrimsTo(s: string, t: string) {
    exists a, b :: 0 <= a <= b <= |s| && TrimsAt(s, a, b) && t == s[a..b]
  }

  ghost predicate TrimsAt(s: string, a: nat, b: nat)
    requires a <= b <= |s|
  {
    && (forall k :: 0 <= k < a || b <= k < |s| ==> IsSpace(s[k]))
    && (a < b ==> !IsSpace(s[a]) && !IsSpace(s[b - 1]))
  }

  lemma TrimsIs(s: string, t: string)
    ensures TrimsTo(s, t) <==> t == Strip(s, SPACES)
  {
    var a, b := TrimmedPlace(s);
    if a': nat, b': nat :| a' <= b' <= |s| && TrimsAt(s, a', b') && t == s[a'..b'] {
      TrimmedAt(s, a', b');
    }
  }

  lemma TrimmedPlace(s: string) returns (a: nat, b: nat)
    ensures a <= b <= |s| && TrimsAt(s, a, b) && Strip(s, SPACES) == s[a..b]
  {
    a, b := 0, |s|;
    while a < b && IsSpace(s[a])
      invariant a <= b == |s| && forall k :: 0 <= k < a ==> IsSpace(s[k])
    {
      a := a + 1;
    }
    while a < b && IsSpace(s[b - 1])
      invariant a <= b <= |s| && forall k :: b <= k < |s| ==> IsSpace(s[k])
      invariant a < b ==> !IsSpace(s[a])
    {
      b := b - 1;
    }
    TrimmedAt(s, a, b);
  }

  lemma TrimmedAt(s: string, a: nat, b: nat)
    requires a <= b <= |s| && TrimsAt(s, a, b)
    ensures Strip(s, SPACES) == s[a..b]
  {
    StripWrapped(s[..a], s[a..b], s[b..], SPACES);
    StripShortens(s[a..b], SPACES);
    assert s == s[..a] + s[a..b] + s[b..];
  }

  /** The definitions in s, when `depth` parentheses are open and `buf` was already read of the first one; a last
      definition that is empty once trimmed is none. */
  ghost predicate SplitsInto(s: string, depth: int, buf: string, parts: seq<string>)
    decreases |s|, 1
  {
    if s == "" then (if TrimsTo(buf, "") then parts == [] else |parts| == 1 && TrimsTo(buf, parts[0]))
    else exists n, kind :: FirstPiece(s, depth, n, kind) && RestSplits(s, depth, buf, parts, n, kind)
  }

  /** Behind the first piece: notes are left out, separators outside all parentheses end a definition, all else is
      kept. */
  ghost predicate RestSplits(s: string, depth: int, buf: string, parts: seq<string>, n: nat, kind: Kind)
    requires 1 <= n <= |s|
    decreases |s|, 0
  {
    match kind
    case Note => SplitsInto(s[n..], depth, buf, parts)
    case Separator => parts != [] && TrimsTo(buf, parts[0]) && SplitsInto(s[n..], 0, "", parts[1..])
    case Opening => SplitsInto(s[n..], depth + 1, buf + "(", parts)
    case Closing => SplitsInto(s[n..], depth - 1, buf + ")", parts)
    case _ => SplitsInto(s[n..], depth, buf + s[..n], parts)
  }

  lemma OneFirstPiece(s: string, depth: int, buf: string, parts: seq<string>)
    requires s != ""
    ensures SplitsInto(s, depth, buf, parts) <==> RestSplits(s, depth, buf, parts, Lexeme(s), KindOf(s, depth))
  {
    FirstPieceIs(s, depth, Lexeme(s), KindOf(s, depth));
    forall m, other | FirstPiece(s, depth, m, other)
      ensures m == Lexeme(s) && other == KindOf(s, depth)
    {
      FirstPieceIs(s, depth, m, other);
    }
  }

  lemma NoteIsSkipped(s: string, depth: int, buf: string)
    requires s != "" && Comment(s)
    ensures Split(s, depth, buf) == Split(s[Lexeme(s)..], depth, buf)
  {
  }

  lemma SeparatorEnds(s: string, buf: string, parts: seq<string>)
    requires s != "" && s[0] == ','
    ensures parts == Split(s, 0, buf) <==>
      parts != [] && parts[0] == Strip(buf, SPACES) && parts[1..] == Split(s[1..], 0, "")
  {
    FirstThenRest(parts, Strip(buf, SPACES), Split(s[1..], 0, ""));
  }

  lemma FirstThenRest(parts: seq<string>, first: string, rest: seq<string>)
    ensures parts == [first] + rest <==> parts != [] && parts[0] == first && parts[1..] == rest
  {
    assert ([first] + rest)[1..] == rest;
    if parts != [] {
      assert parts == [parts[0]] + parts[1..];
    }
  }

  lemma CharacterIsKept(s: string, depth: int, buf: string)
    requires s != "" && !Comment(s) && !(s[0] == ',' && depth == 0)
    ensures Split(s, depth, buf) == Split(s[Lexeme(s)..], Deeper(depth, s[0]), buf + s[..Lexeme(s)])
  {
  }

  /** The parts of any text are those that the rules describe, and no others. */
  lemma {:induction false} SplitFollowsTheRules(s: string, depth: int, buf: string, parts: seq<string>)
    ensures SplitsInto(s, depth, buf, parts) <==> parts == Split(s, depth, buf)
    decreases |s|
  {
    if s == "" {
      TrimsIs(buf, "");
      if parts != [] {
        TrimsIs(buf, parts[0]);
      }
    } else {
      var n, kind := Lexeme(s), KindOf(s, depth);
      OneFirstPiece(s, depth, buf, parts);
      if kind == Note {
        SplitFollowsTheRules(s[n..], depth, buf, parts);
        NoteIsSkipped(s, depth, buf);
      } else if kind == Separator {
        SeparatorEnds(s, buf, parts);
        if parts != [] {
          TrimsIs(buf, parts[0]);
          SplitFollowsTheRules(s[n..], 0, "", parts[1..]);
        }
      } else {
        SplitFollowsTheRules(s[n..], Deeper(depth, s[0]), buf + s[..n], parts);
        CharacterIsKept(s, depth, buf);
        assert kind == Opening || kind == Closing ==> s[..n] == [s[0]];
      }
    }
  }
}
