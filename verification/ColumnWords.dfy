/** The column lookup on any text at all: its words, and the name it declares. */
module ColumnWords {
  import opened Options
  import opened SchemaSplitter
  import opened ColumnLookup
  import opened ColumnNames

  // ----- Words

  /** The first word of s is s[i..j]: only white space before it, none in it, and white space or the end behind it. */
  ghost predicate FirstWordAt(s: string, i: nat, j: nat) {
    i < j <= |s| && AllIn(s[..i], SPACES) && NoSpaces(s[i..j]) && (j < |s| ==> s[j] in SPACES)
  }

  /** ws are the words of s: what white space separates. */
  ghost predicate Separates(s: string, ws: seq<string>)
    decreases |ws|
  {
    if ws == [] then AllIn(s, SPACES)
    else exists i: nat, j: nat :: FirstWordAt(s, i, j) && ws[0] == s[i..j] && Separates(s[j..], ws[1..])
  }

  lemma FirstWordBehindSpace(s: string, i: nat, j: nat)
    requires s != "" && s[0] in SPACES && i > 0
    ensures FirstWordAt(s, i, j) <==> i < j <= |s| && FirstWordAt(s[1..], i - 1, j - 1)
  {
    if i < j <= |s| {
      assert s[1..][i - 1..j - 1] == s[i..j];
      assert s[..i] == [s[0]] + s[1..][..i - 1];
    }
  }

  lemma SpacesInFront(s: string)
    requires s != "" && s[0] in SPACES
    ensures AllIn(s, SPACES) <==> AllIn(s[1..], SPACES)
  {
    assert s == [s[0]] + s[1..];
  }

  /** The words found are the words of the text, and no other list of texts is. */
  lemma {:induction false} WordsAreSeparated(s: string, ws: seq<string>)
    ensures Separates(s, ws) <==> ws == Words(s)
    decreases |s|
  {
    if s == "" {
      NoFirstWord(s);
    } else if s[0] in SPACES {
      SpacesInFront(s);
      WordsAreSeparated(s[1..], ws);
      SpaceSeparates(s, ws);
    } else {
      WordsAreSeparated(s[WordEnd(s)..], if ws == [] then [] else ws[1..]);
      WordSeparates(s, ws);
    }
  }

  lemma NoFirstWord(s: string)
    requires s == ""
    ensures forall i: nat, j: nat :: !FirstWordAt(s, i, j)
  {
  }

  lemma SpaceSeparates(s: string, ws: seq<string>)
    requires s != "" && s[0] in SPACES
    ensures Separates(s, ws) <==> Separates(s[1..], ws)
  {
    SpacesInFront(s);
    if ws != [] {
      if Separates(s, ws) {
        SpaceDrops(s, ws);
      }
      if Separates(s[1..], ws) {
        SpaceAdds(s, ws);
      }
    }
  }

  lemma SpaceAdds(s: string, ws: seq<string>)
    requires s != "" && s[0] in SPACES && ws != [] && Separates(s[1..], ws)
    ensures Separates(s, ws)
  {
    var i: nat, j: nat :| FirstWordAt(s[1..], i, j) && ws[0] == s[1..][i..j] && Separates(s[1..][j..], ws[1..]);
    FirstWordBehindSpace(s, i + 1, j + 1);
    assert s[i + 1..j + 1] == s[1..][i..j] && s[j + 1..] == s[1..][j..];
  }

  lemma SpaceDrops(s: string, ws: seq<string>)
    requires s != "" && s[0] in SPACES && ws != [] && Separates(s, ws)
    ensures Separates(s[1..], ws)
  {
    var i: nat, j: nat :| FirstWordAt(s, i, j) && ws[0] == s[i..j] && Separates(s[j..], ws[1..]);
    assert s[i..j][0] == s[i];
    FirstWordBehindSpace(s, i, j);
    assert s[1..][i - 1..j - 1] == s[i..j] && s[1..][j - 1..] == s[j..];
  }

  lemma WordEndSeparates(s: string)
    requires s != "" && s[0] !in SPACES
    ensures FirstWordAt(s, 0, WordEnd(s))
    ensures forall i: nat, j: nat :: FirstWordAt(s, i, j) ==> i == 0 && j == WordEnd(s)
  {
    var n := WordEnd(s);
    assert forall i: nat :: 0 < i <= |s| ==> s[..i][0] == s[0];
    assert forall j: nat :: n < j <= |s| ==> s[0..j][n] == s[n];
  }

  lemma WordSeparates(s: string, ws: seq<string>)
    requires s != "" && s[0] !in SPACES
    ensures Separates(s, ws) <==> ws != [] && ws[0] == s[..WordEnd(s)] && Separates(s[WordEnd(s)..], ws[1..])
  {
    WordEndSeparates(s);
    assert s[0..WordEnd(s)] == s[..WordEnd(s)];
  }

  // ----- The declared name

  /** The same letters, in any case. */
  ghost predicate SameLetters(a: string, b: string) {
    |a| == |b| && forall k :: 0 <= k < |a| ==> SameLetter(a[k], b[k])
  }

  predicate SameLetter(c: char, d: char) {
    || c == d
    || ('A' <= c <= 'Z' && d as int - c as int == 'a' as int - 'A' as int)
    || ('A' <= d <= 'Z' && c as int - d as int == 'a' as int - 'A' as int)
  }

  lemma LowerIgnoresCase(a: string, b: string)
    ensures Lower(a) == Lower(b) <==> SameLetters(a, b)
  {
    LowerLength(a);
    LowerLength(b);
    forall k | 0 <= k < |a|
      ensures Lower(a)[k] == LowerChar(a[k])
    {
      LowerAt(a, k);
    }
    forall k | 0 <= k < |b|
      ensures Lower(b)[k] == LowerChar(b[k])
    {
      LowerAt(b, k);
    }
    if |a| == |b| {
      assert forall k :: 0 <= k < |a| ==> (LowerChar(a[k]) == LowerChar(b[k]) <==> SameLetter(a[k], b[k]));
    }
  }

  ghost predicate IsQuote(c: char) {
    c in "\"'`[]"
  }

  /** t without the quotes and brackets at its ends is t[a..b]. */
  ghost predicate Unquotes(t: string, a: nat, b: nat) {
    && a <= b <= |t| && (forall k :: 0 <= k < a || b <= k < |t| ==> IsQuote(t[k]))
    && (a < b ==> !IsQuote(t[a]) && !IsQuote(t[b - 1]))
  }

  lemma QuotesAre(c: char)
    ensures c in QUOTES <==> IsQuote(c)
  {
    var all := "\"'`[]";
    assert all[0] == '"' && all[1] == '\'' && all[2] == '`' && all[3] == '[' && all[4] == ']';
  }

  lemma UnquotedIs(t: string, a: nat, b: nat)
    requires Unquotes(t, a, b)
    ensures Strip(t, QUOTES) == t[a..b]
  {
    forall c: char
      ensures c in QUOTES <==> IsQuote(c)
    {
      QuotesAre(c);
    }
    StripWrapped(t[..a], t[a..b], t[b..], QUOTES);
    StripShortens(t[a..b], QUOTES);
    assert t == t[..a] + t[a..b] + t[b..];
  }

  lemma {:induction false} LeftQuotes(t: string) returns (a: nat)
    ensures a <= |t| && (forall k :: 0 <= k < a ==> IsQuote(t[k])) && (a < |t| ==> !IsQuote(t[a]))
  {
    a := 0;
    while a < |t| && IsQuote(t[a])
      invariant a <= |t| && forall k :: 0 <= k < a ==> IsQuote(t[k])
    {
      a := a + 1;
    }
  }

  lemma {:induction false} SomeUnquotes(t: string) returns (a: nat, b: nat)
    ensures Unquotes(t, a, b)
  {
    a := LeftQuotes(t);
    b := |t|;
    while a < b && IsQuote(t[b - 1])
      invariant a <= b <= |t| && forall k :: b <= k < |t| ==> IsQuote(t[k])
    {
      b := b - 1;
    }
  }

  /** The first word of the part, without the quotes at its ends, is the name in some case. */
  ghost predicate NamesAt(part: string, name: string, i: nat, j: nat, a: nat, b: nat) {
    FirstWordAt(part, i, j) && Unquotes(part[i..j], a, b) && SameLetters(part[i..j][a..b], name)
  }

  /** What a definition declares, on any text: its first word, without quotes and brackets at its ends, in any case. */
  lemma DeclaresIff(part: string, name: string)
    ensures Declares(part, name) <==> exists i: nat, j: nat, a: nat, b: nat :: NamesAt(part, name, i, j, a, b)
  {
    WordsAreSeparated(part, Words(part));
    if Declares(part, name) {
      var i: nat, j: nat :| FirstWordAt(part, i, j) && Words(part)[0] == part[i..j] &&
        Separates(part[j..], Words(part)[1..]);
      var a, b := SomeUnquotes(part[i..j]);
      UnquotedIs(part[i..j], a, b);
      LowerIgnoresCase(part[i..j][a..b], name);
      assert NamesAt(part, name, i, j, a, b);
    }
    if i: nat, j: nat, a: nat, b: nat :| NamesAt(part, name, i, j, a, b) {
      FirstOfWords(part, i, j);
      UnquotedIs(part[i..j], a, b);
      LowerIgnoresCase(part[i..j][a..b], name);
    }
  }

  lemma FirstOfWords(s: string, i: nat, j: nat)
    requires FirstWordAt(s, i, j)
    ensures Words(s) != [] && Words(s)[0] == s[i..j]
  {
    var ws := [s[i..j]] + Words(s[j..]);
    WordsAreSeparated(s[j..], Words(s[j..]));
    assert ws[1..] == Words(s[j..]);
    WordsAreSeparated(s, ws);
  }

  /** The text returned for a definition is the one with the same words that is written with single blanks. */
  lemma CollapsedIff(s: string, t: string)
    ensures t == Collapse(s) <==> SingleSpaced(t) && Words(t) == Words(s)
  {
    CollapseKeepsWords(s);
    forall k | 0 <= k < |Words(s)|
      ensures IsWord(Words(s)[k])
    {
      WordsAreWords(s, k);
    }
    UnwordsIsSingleSpaced(Words(s));
    CollapseIsVerbatimIff(t);
  }

  /** A statement without an opening parenthesis that a closing one follows has no columns. */
  lemma NoBodyNoColumn(sql: string, name: string)
    requires forall i, j :: 0 <= i < j < |sql| ==> !(sql[i] == '(' && sql[j] == ')')
    ensures ColumnDef(sql, name) == None
  {
  }
}
