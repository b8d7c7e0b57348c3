/** Looking up one column's definition in a CREATE TABLE statement. */
module ColumnLookup {
  import opened Options
  import opened SchemaSplitter

  // ----- Words

  function WordEnd(s: string): (n: nat)
    ensures n <= |s| && (n < |s| ==> s[n] in SPACES)
    ensures forall j :: 0 <= j < n ==> s[j] !in SPACES
  {
    if s == "" || s[0] in SPACES then 0 else 1 + WordEnd(s[1..])
  }

  /** Python's `split` at white space. */
  function Words(s: string): seq<string>
    decreases |s|
  {
    if s == "" then []
    else if s[0] in SPACES then Words(s[1..])
    else [s[..WordEnd(s)]] + Words(s[WordEnd(s)..])
  }

  function Unwords(ws: seq<string>): string {
    if ws == [] then "" else if |ws| == 1 then ws[0] else ws[0] + " " + Unwords(ws[1..])
  }

  /** The text with every run of white space made one blank. */
  function Collapse(s: string): string { Unwords(Words(s)) }

  predicate IsWord(w: string) {
    w != "" && forall j :: 0 <= j < |w| ==> w[j] !in SPACES
  }

  lemma {:induction false} WordsAreWords(s: string, k: nat)
    requires k < |Words(s)|
    ensures IsWord(Words(s)[k])
    decreases |s|
  {
    if s[0] in SPACES {
      WordsAreWords(s[1..], k);
    } else if k > 0 {
      WordsAreWords(s[WordEnd(s)..], k - 1);
    }
  }

  lemma FirstWord(w: string, t: string)
    requires IsWord(w) && (t == "" || t[0] in SPACES)
    ensures Words(w + t) == [w] + Words(t)
  {
    var s := w + t;
    assert s[0] == w[0] && s[..|w|] == w && s[|w|..] == t;
  }

  lemma {:induction false} UnwordsWords(ws: seq<string>)
    requires forall k :: 0 <= k < |ws| ==> IsWord(ws[k])
    ensures Words(Unwords(ws)) == ws
  {
    if ws != [] {
      if |ws| == 1 {
        assert ws[0] + "" == ws[0];
        FirstWord(ws[0], "");
      } else {
        FirstWord(ws[0], " " + Unwords(ws[1..]));
        UnwordsWords(ws[1..]);
        assert ws[0] + " " + Unwords(ws[1..]) == ws[0] + (" " + Unwords(ws[1..]));
      }
    }
  }

  /** Collapsing loses no word. */
  lemma CollapseKeepsWords(s: string)
    ensures Words(Collapse(s)) == Words(s)
  {
    forall k | 0 <= k < |Words(s)|
      ensures IsWord(Words(s)[k])
    {
      WordsAreWords(s, k);
    }
    UnwordsWords(Words(s));
  }

  /** Every white space is a single blank between two words. */
  predicate SingleSpaced(s: string) {
    forall i :: 0 <= i < |s| && s[i] in SPACES ==> s[i] == ' ' && 0 < i < |s| - 1 && s[i + 1] !in SPACES
  }

  lemma {:induction false} UnwordsIsSingleSpaced(ws: seq<string>)
    requires forall k :: 0 <= k < |ws| ==> IsWord(ws[k])
    ensures SingleSpaced(Unwords(ws)) && (ws != [] ==> Unwords(ws) != "")
  {
    if |ws| > 1 {
      UnwordsIsSingleSpaced(ws[1..]);
      var w, t := ws[0], Unwords(ws[1..]);
      var s := w + " " + t;
      assert forall j :: 0 <= j < |w| ==> s[j] == w[j];
      forall i | 0 <= i < |s| && s[i] in SPACES
        ensures s[i] == ' ' && 0 < i < |s| - 1 && s[i + 1] !in SPACES
      {
        if i > |w| {
          assert s[i] == t[i - |w| - 1];
          assert s[i + 1] == t[i - |w|];
        } else {
          assert s[i + 1] == t[0];
        }
      }
    }
  }

  lemma {:induction false} SingleSpacedIsKept(s: string)
    requires SingleSpaced(s)
    ensures Collapse(s) == s
    decreases |s|
  {
    if s != "" {
      var n := WordEnd(s);
      if n == |s| {
        OneWord(s);
      } else {
        SingleSpacedRest(s, n);
        SingleSpacedIsKept(s[n + 1..]);
        UnwordsCons(s[..n], Words(s[n + 1..]));
        assert s == s[..n] + s[n..];
      }
    }
  }

  lemma OneWord(s: string)
    requires s != "" && WordEnd(s) == |s|
    ensures Words(s) == [s]
  {
    assert s[0] !in SPACES && s[|s|..] == "" && s[..|s|] == s;
    assert Words("") == [];
  }

  lemma SingleSpacedRest(s: string, n: nat)
    requires SingleSpaced(s) && n == WordEnd(s) && n < |s|
    ensures n + 1 < |s| && s[n..] == " " + s[n + 1..] && s[n + 1..][0] !in SPACES && SingleSpaced(s[n + 1..])
    ensures Words(s) == [s[..n]] + Words(s[n + 1..]) && Words(s[n + 1..]) != []
  {
    assert s[n] in SPACES;
    SingleSpacedTail(s, n + 1);
    WordsSplitAt(s, n);
  }

  lemma WordsSplitAt(s: string, n: nat)
    requires 0 < |s| && s[0] !in SPACES && n == WordEnd(s) && n + 1 < |s| && s[n] == ' ' && s[n + 1] !in SPACES
    ensures s[n..] == " " + s[n + 1..]
    ensures Words(s) == [s[..n]] + Words(s[n + 1..]) && Words(s[n + 1..]) != []
  {
    assert s[n..] == " " + s[n + 1..];
    BlankSeparates(s[n + 1..]);
    assert s[n + 1..][0] == s[n + 1];
  }

  lemma SingleSpacedTail(s: string, k: nat)
    requires SingleSpaced(s) && k < |s| && s[k] !in SPACES
    ensures SingleSpaced(s[k..])
  {
    var rest := s[k..];
    assert rest[0] == s[k];
    forall i | 0 <= i < |rest| && rest[i] in SPACES
      ensures rest[i] == ' ' && 0 < i < |rest| - 1 && rest[i + 1] !in SPACES
    {
      assert rest[i] == s[k + i];
    }
  }

  lemma UnwordsCons(w: string, ws: seq<string>)
    requires ws != []
    ensures Unwords([w] + ws) == w + (" " + Unwords(ws))
  {
    assert ([w] + ws)[1..] == ws;
  }

  /** The looked-up definition is verbatim exactly when it was written with single blanks. */
  lemma CollapseIsVerbatimIff(s: string)
    ensures Collapse(s) == s <==> SingleSpaced(s)
  {
    forall k | 0 <= k < |Words(s)|
      ensures IsWord(Words(s)[k])
    {
      WordsAreWords(s, k);
    }
    UnwordsIsSingleSpaced(Words(s));
    if SingleSpaced(s) {
      SingleSpacedIsKept(s);
    }
  }

  // ----- Names

  const QUOTES: set<char> := {'"', '\'', '`', '[', ']'}

  function LowerChar(c: char): char {
    if 'A' <= c <= 'Z' then (c as int + 32) as char else c
  }

  function Lower(s: string): string {
    if s == "" then "" else [LowerChar(s[0])] + Lower(s[1..])
  }

  /** The part's first word, without quotes, is the column name in any case. */
  predicate Declares(part: string, name: string) {
    Words(part) != [] && Lower(Strip(Words(part)[0], QUOTES)) == Lower(name)
  }

  function FindColumn(parts: seq<string>, name: string): Option<string> {
    if parts == [] then None
    else if Declares(parts[0], name) then Some(Collapse(parts[0]))
    else FindColumn(parts[1..], name)
  }

  /** The last position that holds c, or -1. */
  function LastIndex(s: string, c: char): (r: int)
    ensures -1 <= r < |s| && (r >= 0 ==> s[r] == c)
    ensures forall j :: r < j < |s| ==> s[j] != c
  {
    if s == "" then -1 else if s[|s| - 1] == c then |s| - 1 else LastIndex(s[..|s| - 1], c)
  }

  function ColumnDef(sql: string, name: string): Option<string> {
    var start, end := FindFrom(sql, '(', 0), LastIndex(sql, ')');
    if start == |sql| || end <= start then None else FindColumn(Split(sql[start + 1..end], 0, ""), name)
  }

  /** The definition of one column of a CREATE TABLE statement. */
  method ExtractColumnDef(sql: string, name: string) returns (r: Option<string>)
    ensures r == ColumnDef(sql, name)
  {
    var start, end := FindFrom(sql, '(', 0), LastIndex(sql, ')');
    if start == |sql| || end <= start {
      return None;
    }
    var parts := SplitTopLevel(sql[start + 1..end]);
    for k := 0 to |parts|
      invariant FindColumn(parts, name) == FindColumn(parts[k..], name)
    {
      var tokens := Words(parts[k]);
      assert parts[k..][0] == parts[k] && parts[k..][1..] == parts[k + 1..];
      if tokens != [] {
        var ident := Strip(tokens[0], QUOTES);
        if Lower(ident) == Lower(name) {
          return Some(Unwords(tokens));
        }
      }
    }
    return None;
  }

  // ----- What the lookup finds

  ghost predicate FirstDeclaring(ds: seq<string>, name: string, k: nat) {
    k < |ds| && Declares(ds[k], name) && forall j :: 0 <= j < k ==> !Declares(ds[j], name)
  }

  lemma {:induction false} FindColumnIsFirst(parts: seq<string>, name: string)
    ensures FindColumn(parts, name).None? ==> forall k :: 0 <= k < |parts| ==> !Declares(parts[k], name)
    ensures FindColumn(parts, name).Some? ==>
      exists k: nat :: FirstDeclaring(parts, name, k) && FindColumn(parts, name).value == Collapse(parts[k])
  {
    if parts != [] {
      if Declares(parts[0], name) {
        assert FirstDeclaring(parts, name, 0);
      } else {
        FindColumnIsFirst(parts[1..], name);
        if FindColumn(parts, name).Some? {
          var k: nat :| FirstDeclaring(parts[1..], name, k) && FindColumn(parts, name).value == Collapse(parts[1..][k]);
          assert FirstDeclaring(parts, name, k + 1);
        }
      }
    }
  }

  lemma ColumnsOfStatement(before: string, body: string, after: string, name: string)
    requires '(' !in before && ')' !in after
    ensures ColumnDef(before + "(" + body + ")" + after, name) == FindColumn(Split(body, 0, ""), name)
  {
    var sql := before + "(" + body + ")" + after;
    FindFromIs(sql, '(', 0, |before|);
    var end := |before| + 1 + |body|;
    LastIndexIs(sql, ')', end);
    assert sql[|before| + 1..end] == body;
  }

  lemma LastIndexIs(s: string, c: char, r: nat)
    requires r < |s| && s[r] == c && forall j :: r < j < |s| ==> s[j] != c
    ensures LastIndex(s, c) == r
  {
  }

  /** Nothing is found exactly if none of the definitions declares the name; otherwise the first one that does. */
  ghost predicate FindsFirst(r: Option<string>, ds: seq<string>, name: string) {
    && (r.None? <==> forall k :: 0 <= k < |ds| ==> !Declares(ds[k], name))
    && forall k: nat :: FirstDeclaring(ds, name, k) ==> r == Some(Collapse(ds[k]))
  }

  lemma FindColumnFindsFirst(ds: seq<string>, name: string)
    ensures FindsFirst(FindColumn(ds, name), ds, name)
  {
    FindColumnIsFirst(ds, name);
    forall k: nat | FirstDeclaring(ds, name, k)
      ensures FindColumn(ds, name) == Some(Collapse(ds[k]))
    {
      var j: nat :| FirstDeclaring(ds, name, j) && FindColumn(ds, name).value == Collapse(ds[j]);
      assert j == k;
    }
  }

  /** The texts without their comments. */
  function KeptEach(ts: seq<Text>): (r: seq<string>)
    ensures |r| == |ts|
  {
    if ts == [] then [] else [Kept(ts[0])] + KeptEach(ts[1..])
  }

  /** In a CREATE TABLE statement made of these definitions, comments and all, the lookup by name finds the first
      definition that, without its comments, declares the name, and nothing exactly if none does. */
  lemma {:induction false} LookupFindsTheDefinition(before: string, ts: seq<Text>, after: string, name: string)
    requires '(' !in before && ')' !in after && forall i :: 0 <= i < |ts| ==> WellFormed(ts[i], false)
    ensures FindsFirst(ColumnDef(before + "(" + Join(Prints(ts)) + ")" + after, name), KeptEach(ts), name)
  {
    ColumnsOfStatement(before, Join(Prints(ts)), after, name);
    CommentsAreSkipped(ts);
    PartsDeclareAlike(ts, name);
    FindColumnFindsFirst(KeptEach(ts), name);
  }

  /** The same for any separable definitions as they are. */
  lemma LookupInSeparable(before: string, ds: seq<string>, after: string, name: string)
    requires '(' !in before && ')' !in after && Separable(ds)
    ensures FindsFirst(ColumnDef(before + "(" + Join(ds) + ")" + after, name), ds, name)
  {
    ColumnsOfStatement(before, Join(ds), after, name);
    SeparableRoundTrip(ds);
    FindColumnFindsFirst(ds, name);
  }

  // ----- Stripping and dropping empty parts changes nothing for the lookup

  lemma {:induction false} WordsOfTrimLeft(s: string)
    ensures Words(TrimLeft(s, SPACES)) == Words(s)
  {
    if s != "" && s[0] in SPACES {
      WordsOfTrimLeft(s[1..]);
    }
  }

  lemma {:induction false} WordsWithoutLast(s: string)
    requires s != "" && s[|s| - 1] in SPACES
    ensures Words(s[..|s| - 1]) == Words(s)
    decreases |s|
  {
    var init := s[..|s| - 1];
    if s[0] in SPACES {
      if |s| > 1 {
        WordsWithoutLast(s[1..]);
        assert s[1..][..|s| - 2] == init[1..];
      }
    } else {
      var n := WordEnd(s);
      assert s[|s| - 1] in SPACES;
      WordEndWithoutLast(s);
      WordsWithoutLast(s[n..]);
      assert s[n..][..|s| - n - 1] == init[n..] && s[..n] == init[..n];
    }
  }

  lemma {:induction false} WordEndWithoutLast(s: string)
    requires s != "" && s[|s| - 1] in SPACES
    ensures WordEnd(s[..|s| - 1]) == WordEnd(s) < |s|
  {
    if s[0] !in SPACES {
      WordEndWithoutLast(s[1..]);
      assert s[1..][..|s| - 2] == s[..|s| - 1][1..];
    }
  }

  lemma {:induction false} WordsOfTrimRight(s: string)
    ensures Words(TrimRight(s, SPACES)) == Words(s)
  {
    if s != "" && s[|s| - 1] in SPACES {
      WordsWithoutLast(s);
      WordsOfTrimRight(s[..|s| - 1]);
    }
  }

  lemma WordsOfStrip(s: string)
    ensures Words(Strip(s, SPACES)) == Words(s)
  {
    WordsOfTrimLeft(s);
    WordsOfTrimRight(TrimLeft(s, SPACES));
  }

  lemma {:induction false} PartsDeclareAlike(ts: seq<Text>, name: string)
    ensures FindColumn(Parts(ts), name) == FindColumn(KeptEach(ts), name)
  {
    if ts != [] {
      var kept, part := Kept(ts[0]), Strip(Kept(ts[0]), SPACES);
      WordsOfStrip(kept);
      PartsDeclareAlike(ts[1..], name);
      assert ([kept] + KeptEach(ts[1..]))[1..] == KeptEach(ts[1..]);
      if |ts| == 1 && part == "" {
        assert Words(kept) == [] && KeptEach(ts[1..]) == [];
      } else {
        assert ([part] + Parts(ts[1..]))[1..] == Parts(ts[1..]);
      }
    }
  }

  // ----- White space inside quotes

  lemma WordThenBlank(w: string, t: string)
    requires IsWord(w)
    ensures Words(w + " " + t) == [w] + Words(t)
  {
    FirstWord(w, " " + t);
    BlankSeparates(t);
    assert w + " " + t == w + (" " + t);
  }

  lemma BlankSeparates(t: string)
    ensures Words(" " + t) == Words(t)
  {
    assert (" " + t)[1..] == t && IsSpace(' ');
  }

  /** `a DEFAULT '  '`, a default of two blanks, comes back with a default of one. */
  lemma QuotedBlanksCollapse(written: string, found: string)
    requires written == "a" + " " + ("DEFAULT" + " " + "'  '")
    requires found == "a" + " " + ("DEFAULT" + " " + ("'" + " " + "'"))
    ensures FindColumn([written], "a") == Some(found) && |found| == |written| - 1
  {
    WordsOfDefault(written);
    FourWords("a", "DEFAULT", "'", "'");
    assert Strip("a", QUOTES) == "a";
  }

  lemma WordsOfDefault(written: string)
    requires written == "a" + " " + ("DEFAULT" + " " + "'  '")
    ensures Words(written) == ["a"] + (["DEFAULT"] + (["'"] + ["'"]))
  {
    TwoWordsThen("a", "DEFAULT", "'  '");
    WordsOfTwoBlanks();
  }

  lemma TwoWordsThen(a: string, b: string, t: string)
    requires IsWord(a) && IsWord(b)
    ensures Words(a + " " + (b + " " + t)) == [a] + ([b] + Words(t))
  {
    WordThenBlank(a, b + " " + t);
    WordThenBlank(b, t);
  }

  lemma WordsOfTwoBlanks()
    ensures Words("'  '") == ["'"] + ["'"]
  {
    WordThenBlank("'", " '");
    BlankSeparates("'");
    FirstWord("'", "");
    assert "'" + " " + " '" == "'  '" && " " + "'" == " '" && "'" + "" == "'";
  }

  lemma FourWords(a: string, b: string, c: string, d: string)
    ensures Unwords([a] + ([b] + ([c] + [d]))) == a + " " + (b + " " + (c + " " + d))
  {
    assert Unwords([c] + [d]) == c + " " + Unwords([d]);
    assert ([b] + ([c] + [d]))[1..] == [c] + [d];
    assert ([a] + ([b] + ([c] + [d])))[1..] == [b] + ([c] + [d]);
  }
}
