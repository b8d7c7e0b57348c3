/** Which column names a definition declares to the lookup: quoted names, and comments behind a name. */
module ColumnNames {
  import opened Options
  import opened SchemaSplitter
  import opened ColumnLookup

  // ----- Names with quotes around them

  predicate AllIn(s: string, drop: set<char>) {
    forall j :: 0 <= j < |s| ==> s[j] in drop
  }

  predicate NoSpaces(s: string) {
    forall j :: 0 <= j < |s| ==> s[j] !in SPACES
  }

  lemma {:induction false} TrimLeftOf(left: string, t: string, drop: set<char>)
    requires AllIn(left, drop)
    ensures TrimLeft(left + t, drop) == TrimLeft(t, drop)
  {
    if left == "" {
      assert left + t == t;
    } else {
      assert (left + t)[1..] == left[1..] + t;
      TrimLeftOf(left[1..], t, drop);
    }
  }

  lemma {:induction false} TrimRightOf(t: string, right: string, drop: set<char>)
    requires AllIn(right, drop)
    ensures TrimRight(t + right, drop) == TrimRight(t, drop)
  {
    if right == "" {
      assert t + right == t;
    } else {
      var s := t + right;
      assert s[..|s| - 1] == t + right[..|right| - 1];
      TrimRightOf(t, right[..|right| - 1], drop);
    }
  }

  lemma {:induction false} TrimLeftThen(t: string, right: string, drop: set<char>)
    requires AllIn(right, drop)
    ensures TrimLeft(t + right, drop) == if TrimLeft(t, drop) == "" then "" else TrimLeft(t, drop) + right
  {
    if t == "" {
      assert t + right == right && right + "" == right;
      TrimLeftOf(right, "", drop);
    } else if t[0] in drop {
      assert (t + right)[1..] == t[1..] + right;
      TrimLeftThen(t[1..], right, drop);
    }
  }

  /** Quotes around a text, however many, are stripped with those at its ends. */
  lemma StripWrapped(left: string, t: string, right: string, drop: set<char>)
    requires AllIn(left, drop) && AllIn(right, drop)
    ensures Strip(left + t + right, drop) == Strip(t, drop)
  {
    assert left + t + right == left + (t + right);
    TrimLeftOf(left, t + right, drop);
    TrimLeftThen(t, right, drop);
    TrimRightOf(TrimLeft(t, drop), right, drop);
  }

  lemma {:induction false} TrimLeftShortens(t: string, drop: set<char>)
    ensures TrimLeft(t, drop) == t || |TrimLeft(t, drop)| < |t|
    ensures TrimLeft(t, drop) == t <==> t == "" || t[0] !in drop
  {
  }

  lemma StripShortens(t: string, drop: set<char>)
    ensures if Trimmed(t, drop) then Strip(t, drop) == t else |Strip(t, drop)| < |t|
  {
    TrimLeftShortens(t, drop);
  }

  lemma {:induction false} LowerAt(s: string, j: nat)
    requires j < |s|
    ensures |Lower(s)| == |s| && Lower(s)[j] == LowerChar(s[j])
  {
    if j > 0 {
      LowerAt(s[1..], j - 1);
    } else {
      LowerLength(s);
    }
  }

  lemma {:induction false} LowerLength(s: string)
    ensures |Lower(s)| == |s|
  {
    if s != "" {
      LowerLength(s[1..]);
    }
  }

  lemma FirstIsWrapped(left: string, word: string, right: string, rest: string)
    requires AllIn(left, QUOTES) && AllIn(right, QUOTES) && NoSpaces(word) && left + word + right != ""
    requires rest == "" || rest[0] in SPACES
    ensures Words(left + word + right + rest) == [left + word + right] + Words(rest)
  {
    var w := left + word + right;
    forall j | 0 <= j < |w|
      ensures w[j] !in SPACES
    {
      assert if j < |left| then w[j] == left[j]
        else if j < |left| + |word| then w[j] == word[j - |left|]
        else w[j] == right[j - |left| - |word|];
    }
    FirstWord(w, rest);
  }

  /** A definition that starts with a text without white space, bare or between quotes or brackets, declares that
      text without the quotes at its ends, in any case, and nothing else. */
  lemma DeclaresItsName(left: string, word: string, right: string, rest: string, name: string)
    requires AllIn(left, QUOTES) && AllIn(right, QUOTES) && NoSpaces(word) && left + word + right != ""
    requires rest == "" || rest[0] in SPACES
    ensures Declares(left + word + right + rest, name) <==> Lower(Strip(word, QUOTES)) == Lower(name)
  {
    FirstIsWrapped(left, word, right, rest);
    StripWrapped(left, word, right, QUOTES);
  }

  lemma {:induction false} StripAddsNothing(t: string, drop: set<char>, j: nat)
    requires j < |Strip(t, drop)|
    ensures Strip(t, drop)[j] in t
    decreases |t|
  {
    if t != "" && t[0] in drop {
      StripAddsNothing(t[1..], drop, j);
    } else {
      TrimRightIsPrefix(t, drop);
    }
  }

  lemma {:induction false} TrimRightIsPrefix(t: string, drop: set<char>)
    ensures TrimRight(t, drop) <= t
  {
    if t != "" && t[|t| - 1] in drop {
      TrimRightIsPrefix(t[..|t| - 1], drop);
    }
  }

  /** A name with white space in it is never found. */
  lemma SpacedNamesAreNotFound(part: string, name: string)
    requires !NoSpaces(name)
    ensures !Declares(part, name)
  {
    if Declares(part, name) {
      var word := Words(part)[0];
      var ident := Strip(word, QUOTES);
      var j :| 0 <= j < |name| && name[j] in SPACES;
      LowerLength(name);
      LowerLength(ident);
      LowerAt(name, j);
      LowerAt(ident, j);
      WordsAreWords(part, 0);
      StripAddsNothing(word, QUOTES, j);
    }
  }

  /** A definition that starts with a name, bare or between quotes or brackets, declares that name exactly if there is
      no white space in it and no quote or bracket at its ends. */
  lemma DeclaresOwnNameIff(left: string, name: string, right: string, rest: string)
    requires AllIn(left, QUOTES) && AllIn(right, QUOTES) && left + name + right != ""
    requires rest == "" || rest[0] in SPACES
    ensures Declares(left + name + right + rest, name) <==> NoSpaces(name) && Trimmed(name, QUOTES)
  {
    if NoSpaces(name) {
      DeclaresItsName(left, name, right, rest, name);
      StripShortens(name, QUOTES);
      LowerLength(name);
      LowerLength(Strip(name, QUOTES));
    } else {
      SpacedNamesAreNotFound(left + name + right + rest, name);
    }
  }

  /** The column "a b" is not found, and its definition is returned for the column a that follows it. */
  lemma QuotedNameHidesAnother(part: string, other: string)
    requires part == "\"" + "a" + "" + " b\" TEXT" && Declares(other, "a")
    ensures FindColumn([part, other], "a b") == None
    ensures FindColumn([part, other], "a") == Some(Collapse(part))
  {
    HalfQuotedName(part);
    assert !NoSpaces("a b") by {
      assert "a b"[1] in SPACES;
    }
    SpacedNamesAreNotFound(part, "a b");
    SpacedNamesAreNotFound(other, "a b");
    NoneOfTwo(part, other, "a b");
  }

  lemma NoneOfTwo(a: string, b: string, name: string)
    requires !Declares(a, name) && !Declares(b, name)
    ensures FindColumn([a, b], name) == None
  {
    assert [a, b][1..] == [b] && [b][1..] == [];
    assert FindColumn([b], name) == None;
  }

  lemma HalfQuotedName(part: string)
    requires part == "\"" + "a" + "" + " b\" TEXT"
    ensures Declares(part, "a")
  {
    DeclaresItsName("\"", "a", "", " b\" TEXT", "a");
    StripShortens("a", QUOTES);
  }

  // ----- Comments behind a name

  /** The characters of w, then t. */
  function Spelled(w: string, t: Text): Text {
    if w == "" then t else Plain(w[0], Spelled(w[1..], t))
  }

  lemma {:induction false} SpelledPrints(w: string, t: Text)
    ensures Print(Spelled(w, t)) == w + Print(t) && Kept(Spelled(w, t)) == w + Kept(t)
  {
    if w == "" {
      assert w + Print(t) == Print(t) && w + Kept(t) == Kept(t);
    } else {
      SpelledPrints(w[1..], t);
      SplitFirst(w, Print(t));
      SplitFirst(w, Kept(t));
    }
  }

  lemma SplitFirst(w: string, k: string)
    requires w != ""
    ensures w + k == [w[0]] + (w[1..] + k)
  {
  }

  /** What follows a name is not part of the first word, or only quotes are. */
  lemma NameThenIff(name: string, rest: string)
    requires IsWord(name) && Trimmed(name, QUOTES)
    ensures Declares(name + rest, name) <==> AllIn(rest[..WordEnd(rest)], QUOTES)
  {
    FirstIsGlued(name, rest[..WordEnd(rest)], rest[WordEnd(rest)..]);
    assert name + rest == name + rest[..WordEnd(rest)] + rest[WordEnd(rest)..];
  }

  lemma FirstIsGlued(name: string, glued: string, after: string)
    requires IsWord(name) && Trimmed(name, QUOTES) && NoSpaces(glued) && (after == "" || after[0] in SPACES)
    ensures Declares(name + glued + after, name) <==> AllIn(glued, QUOTES)
  {
    FirstWord(name + glued, after);
    if AllIn(glued, QUOTES) {
      StripWrapped("", name, glued, QUOTES);
      StripShortens(name, QUOTES);
      assert "" + name + glued == name + glued;
    } else {
      GluedIsLonger(name, glued);
      LowerLength(name);
      LowerLength(Strip(name + glued, QUOTES));
    }
  }

  lemma {:induction false} GluedIsLonger(name: string, glued: string)
    requires name != "" && name[0] !in QUOTES && !AllIn(glued, QUOTES)
    ensures |Strip(name + glued, QUOTES)| > |name|
    decreases |glued|
  {
    var s, last := name + glued, |glued| - 1;
    assert TrimLeft(s, QUOTES) == s;
    if glued[last] in QUOTES {
      assert s[..|s| - 1] == name + glued[..last];
      GluedIsLonger(name, glued[..last]);
      assert TrimLeft(name + glued[..last], QUOTES) == name + glued[..last];
    }
  }

  /** A block comment behind a column's name leaves the name intact exactly if white space comes before it, or if
      behind it the text ends or goes on with white space (after quotes at most): the scanner puts nothing in its
      place. */
  lemma CommentAfterNameIff(name: string, gap: string, note: string, rest: Text)
    requires IsWord(name) && Trimmed(name, QUOTES) && AllIn(gap, SPACES)
    ensures Declares(Kept(Spelled(name + gap, Block(note, rest))), name) <==>
      gap != "" || AllIn(Kept(rest)[..WordEnd(Kept(rest))], QUOTES)
  {
    KeptBehind(name, gap, note, rest);
    NameThenIff(name, gap + Kept(rest));
    GapEndsWord(gap, Kept(rest));
  }

  lemma KeptBehind(name: string, gap: string, note: string, rest: Text)
    ensures Kept(Spelled(name + gap, Block(note, rest))) == name + (gap + Kept(rest))
  {
    SpelledPrints(name + gap, Block(note, rest));
    assert (name + gap) + Kept(rest) == name + (gap + Kept(rest));
  }

  lemma GapEndsWord(gap: string, rest: string)
    requires AllIn(gap, SPACES)
    ensures var word := (gap + rest)[..WordEnd(gap + rest)];
      word == if gap == "" then rest[..WordEnd(rest)] else ""
  {
    if gap == "" {
      assert gap + rest == rest;
    } else {
      assert (gap + rest)[0] == gap[0] && IsSpace(gap[0]);
    }
  }

  /** A line comment always separates: its line break stays. */
  lemma LineCommentSeparates(name: string, note: string, rest: Text)
    requires IsWord(name) && Trimmed(name, QUOTES)
    ensures Declares(Kept(Spelled(name, Line(note, rest))), name)
  {
    var kept := "\n" + Kept(rest);
    SpelledPrints(name, Line(note, rest));
    NameThenIff(name, kept);
    assert kept[0] == '\n' && IsSpace('\n') && WordEnd(kept) == 0;
  }

  /** A block comment between a column's name and its type, and nothing else: the lookup misses the column. */
  lemma GluedCommentHidesColumn(t: Text, name: string, note: string, kind: string)
    requires t == Spelled(name, Block(note, Spelled(kind, End))) && WellFormed(t, false)
    requires IsWord(name) && Trimmed(name, QUOTES) && IsWord(kind) && kind[0] !in QUOTES
    ensures Print(t) == name + ("/*" + note + "*/" + kind)
    ensures FindColumn(Split(Print(t), 0, ""), name) == None
  {
    var rest := Spelled(kind, End);
    SpelledPrints(kind, End);
    SpelledPrints(name, Block(note, rest));
    assert Kept(rest) == kind && Print(rest) == kind;
    CommentAfterNameIff(name, "", note, rest);
    assert name + "" == name && WordEnd(kind) > 0 && kind[..WordEnd(kind)][0] == kind[0];
    SplitOfOne(t, name);
    OneUndeclared(Kept(t), name);
  }

  lemma SplitOfOne(t: Text, name: string)
    requires WellFormed(t, false)
    ensures FindColumn(Split(Print(t), 0, ""), name) == FindColumn([Kept(t)], name)
  {
    CommentsAreSkipped([t]);
    PartsDeclareAlike([t], name);
    assert [t][1..] == [] && Prints([t]) == [Print(t)] && KeptEach([t]) == [Kept(t)];
  }

  lemma OneUndeclared(part: string, name: string)
    requires !Declares(part, name)
    ensures FindColumn([part], name) == None
  {
    assert [part][1..] == [];
  }

  /** `a/*x*/INT` is such a definition. */
  lemma GluedCommentExample()
    ensures var t := Plain('a', Block("x", Plain('I', Plain('N', Plain('T', End)))));
      WellFormed(t, false) && FindColumn(Split(Print(t), 0, ""), "a") == None
  {
    var t := Plain('a', Block("x", Plain('I', Plain('N', Plain('T', End)))));
    SpelledLiterals();
    GluedCommentHidesColumn(t, "a", "x", "INT");
  }

  lemma SpelledLiterals()
    ensures Spelled("INT", End) == Plain('I', Plain('N', Plain('T', End)))
    ensures forall t :: Spelled("a", t) == Plain('a', t)
  {
    assert "INT"[1..] == "NT" && "NT"[1..] == "T" && "T"[1..] == "";
    assert Spelled("T", End) == Plain('T', End) && Spelled("NT", End) == Plain('N', Plain('T', End));
    forall t
      ensures Spelled("a", t) == Plain('a', t)
    {
      assert "a"[1..] == "";
    }
  }
}
