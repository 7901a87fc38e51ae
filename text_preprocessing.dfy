/** Text normalisation used before embedding: lower-case, every character
    that is neither a word character nor whitespace becomes a space, runs of
    whitespace collapse to one space, and the ends are trimmed. Characters
    are classified by their ASCII meaning (see README). */
module TextPreprocessing {

  /** Python's whitespace among the ASCII characters. */
  predicate IsSpace(c: char)
  {
    c == ' ' || c == '\t' || c == '\n' || c == '\r' || c == '\U{0B}' || c == '\U{0C}' ||
    ('\U{1C}' <= c <= '\U{1F}')
  }

  predicate IsUpper(c: char)
  {
    'A' <= c <= 'Z'
  }

  /** A character matched by the regular expression class `\w`. */
  predicate IsWordChar(c: char)
  {
    ('a' <= c <= 'z') || ('A' <= c <= 'Z') || ('0' <= c <= '9') || c == '_'
  }

  function LowerChar(c: char): (r: char)
    ensures !IsUpper(r)
    ensures IsWordChar(r) <==> IsWordChar(c)
    ensures IsSpace(r) <==> IsSpace(c)
    ensures !IsUpper(c) ==> r == c
  {
    if IsUpper(c) then (c as int + 32) as char else c
  }

  /** `str.lower()`. */
  function Lower(s: string): (r: string)
    ensures |r| == |s|
    ensures forall i :: 0 <= i < |s| ==> r[i] == LowerChar(s[i])
  {
    seq(|s|, i requires 0 <= i < |s| => LowerChar(s[i]))
  }

  /** `re.sub(r"[^\w\s]", " ", s)`. */
  function ReplaceNonWord(s: string): (r: string)
    ensures |r| == |s|
    ensures forall i :: 0 <= i < |s| ==> r[i] == (if IsWordChar(s[i]) || IsSpace(s[i]) then s[i] else ' ')
  {
    seq(|s|, i requires 0 <= i < |s| => if IsWordChar(s[i]) || IsSpace(s[i]) then s[i] else ' ')
  }

  /** `re.sub(r"\s+", " ", s)`: a whitespace character followed by another is
      dropped, the last one of a run becomes a single space. */
  function CollapseWhitespace(s: string): (r: string)
    ensures forall i :: 0 <= i < |r| ==> r[i] == ' ' || (!IsSpace(r[i]) && r[i] in s)
    ensures forall i :: 0 <= i < |r| - 1 ==> !(IsSpace(r[i]) && IsSpace(r[i + 1]))
    ensures |s| > 0 ==> |r| > 0 && (IsSpace(r[0]) <==> IsSpace(s[0])) && (!IsSpace(s[0]) ==> r[0] == s[0])
  {
    if s == [] then []
    else if IsSpace(s[0]) then
      if |s| > 1 && IsSpace(s[1]) then CollapseWhitespace(s[1..]) else [' '] + CollapseWhitespace(s[1..])
    else [s[0]] + CollapseWhitespace(s[1..])
  }

  /** Number of leading whitespace characters. */
  function LeadingSpaces(s: string): (n: nat)
    ensures n <= |s|
    ensures forall j :: 0 <= j < n ==> IsSpace(s[j])
    ensures n < |s| ==> !IsSpace(s[n])
  {
    if s == [] || !IsSpace(s[0]) then 0 else 1 + LeadingSpaces(s[1..])
  }

  /** Length of `s` without its trailing whitespace. */
  function EndWithoutSpaces(s: string): (e: nat)
    ensures e <= |s|
    ensures forall j :: e <= j < |s| ==> IsSpace(s[j])
    ensures e > 0 ==> !IsSpace(s[e - 1])
  {
    if s == [] || !IsSpace(s[|s| - 1]) then |s| else EndWithoutSpaces(s[..|s| - 1])
  }

  /** `str.strip()`: the slice of `s` between its leading and trailing
      whitespace; empty exactly when `s` is all whitespace. */
  function Strip(s: string): (r: string)
    ensures LeadingSpaces(s) + |r| <= |s|
    ensures forall i :: 0 <= i < |r| ==> r[i] == s[LeadingSpaces(s) + i]
    ensures forall j :: LeadingSpaces(s) + |r| <= j < |s| ==> IsSpace(s[j])
    ensures r != [] ==> !IsSpace(r[0]) && !IsSpace(r[|r| - 1])
    ensures r == [] <==> forall i :: 0 <= i < |s| ==> IsSpace(s[i])
  {
    var a, e := LeadingSpaces(s), EndWithoutSpaces(s);
    if a < e then s[a..e] else []
  }

  /** The non-whitespace characters of `s`, in order. */
  function NonSpace(s: string): string
  {
    if s == [] then [] else (if IsSpace(s[0]) then [] else [s[0]]) + NonSpace(s[1..])
  }

  /** The number of whitespace characters in `s`. */
  function SpaceCount(s: string): nat
  {
    if s == [] then 0 else (if IsSpace(s[0]) then 1 else 0) + SpaceCount(s[1..])
  }

  /** The number of maximal whitespace runs in `s`. */
  function RunCount(s: string): nat
    decreases |s|
  {
    if s == [] then 0
    else if IsSpace(s[0]) then 1 + RunCount(s[LeadingSpaces(s)..])
    else RunCount(s[1..])
  }

  lemma NonSpaceCons(c: char, t: string)
    ensures NonSpace([c] + t) == (if IsSpace(c) then [] else [c]) + NonSpace(t)
  {
    assert ([c] + t)[1..] == t;
  }

  lemma SpaceCountCons(c: char, t: string)
    ensures SpaceCount([c] + t) == (if IsSpace(c) then 1 else 0) + SpaceCount(t)
  {
    assert ([c] + t)[1..] == t;
  }

  lemma {:induction false} NonSpaceAppend(a: string, b: string)
    ensures NonSpace(a + b) == NonSpace(a) + NonSpace(b)
  {
    if a != [] {
      assert (a + b)[0] == a[0] && (a + b)[1..] == a[1..] + b;
      NonSpaceAppend(a[1..], b);
    } else {
      assert a + b == b;
    }
  }

  lemma {:induction false} NonSpaceOfBlank(a: string)
    requires forall i :: 0 <= i < |a| ==> IsSpace(a[i])
    ensures NonSpace(a) == []
  {
    if a != [] {
      NonSpaceOfBlank(a[1..]);
    }
  }

  /** `re.sub(r"\s+", " ", s)` keeps every non-whitespace character of `s`,
      in order, and adds none. */
  lemma {:induction false} CollapseKeepsWords(s: string)
    ensures NonSpace(CollapseWhitespace(s)) == NonSpace(s)
    decreases |s|
  {
    if s != [] {
      var t := CollapseWhitespace(s[1..]);
      CollapseKeepsWords(s[1..]);
      if !IsSpace(s[0]) {
        NonSpaceCons(s[0], t);
      } else if !(|s| > 1 && IsSpace(s[1])) {
        NonSpaceCons(' ', t);
      }
    }
  }

  /** `re.sub(r"\s+", " ", s)` writes exactly one space for each maximal
      whitespace run of `s`. */
  lemma {:induction false} CollapseOneSpacePerRun(s: string)
    ensures SpaceCount(CollapseWhitespace(s)) == RunCount(s)
    decreases |s|
  {
    if s != [] {
      if IsSpace(s[0]) {
        var n := LeadingSpaces(s);
        assert s == s[..n] + s[n..];
        assert s[n..] != [] ==> s[n..][0] == s[n];
        CollapseSpaces(s[..n], s[n..]);
        CollapseOneSpacePerRun(s[n..]);
        SpaceCountCons(' ', CollapseWhitespace(s[n..]));
      } else {
        CollapseOneSpacePerRun(s[1..]);
        SpaceCountCons(s[0], CollapseWhitespace(s[1..]));
      }
    }
  }

  /** A slice of `s` with only whitespace around it keeps all of `s`'s
      non-whitespace characters. */
  lemma NonSpaceOfPadded(s: string, a: nat, r: string)
    requires a + |r| <= |s|
    requires forall i :: 0 <= i < |r| ==> r[i] == s[a + i]
    requires forall j :: 0 <= j < a ==> IsSpace(s[j])
    requires forall j :: a + |r| <= j < |s| ==> IsSpace(s[j])
    ensures NonSpace(s) == NonSpace(r)
  {
    var e := a + |r|;
    var head, mid, tail := s[..a], s[a..e], s[e..];
    assert mid == r;
    assert s[..e] == head + mid;
    assert s == s[..e] + tail;
    NonSpaceOfBlank(head);
    NonSpaceOfBlank(tail);
    NonSpaceAppend(head, mid);
    NonSpaceAppend(s[..e], tail);
  }

  /** `str.strip()` removes whitespace only. */
  lemma StripKeepsWords(s: string)
    ensures NonSpace(Strip(s)) == NonSpace(s)
  {
    NonSpaceOfPadded(s, LeadingSpaces(s), Strip(s));
  }

  /** The preprocessing pipeline (without Unicode NFKC normalisation). */
  function Preprocess(text: string): string
  {
    Strip(CollapseWhitespace(ReplaceNonWord(Lower(text))))
  }

  /** The shape of every preprocessed string. */
  predicate Normalized(s: string)
  {
    && (s != [] ==> s[0] != ' ' && s[|s| - 1] != ' ')
    && (forall i :: 0 <= i < |s| ==> IsWordChar(s[i]) || s[i] == ' ')
    && (forall i :: 0 <= i < |s| ==> !IsUpper(s[i]))
    && (forall i :: 0 <= i < |s| - 1 ==> !(s[i] == ' ' && s[i + 1] == ' '))
  }

  /** Lower-casing then replacing leaves only word characters and whitespace, none upper case. */
  lemma LowerReplaceShape(text: string)
    ensures forall i :: 0 <= i < |ReplaceNonWord(Lower(text))| ==>
      var c := ReplaceNonWord(Lower(text))[i]; (IsWordChar(c) || IsSpace(c)) && !IsUpper(c)
  {
  }

  lemma CollapseShape(p: string)
    requires forall i :: 0 <= i < |p| ==> (IsWordChar(p[i]) || IsSpace(p[i])) && !IsUpper(p[i])
    ensures forall i :: 0 <= i < |CollapseWhitespace(p)| ==>
      var c := CollapseWhitespace(p)[i]; (IsWordChar(c) || c == ' ') && !IsUpper(c)
  {
    var c := CollapseWhitespace(p);
    forall i | 0 <= i < |c| ensures (IsWordChar(c[i]) || c[i] == ' ') && !IsUpper(c[i]) {
      if c[i] != ' ' {
        var j :| 0 <= j < |p| && p[j] == c[i];
      }
    }
  }

  lemma StripShape(c: string)
    requires forall i :: 0 <= i < |c| ==> (IsWordChar(c[i]) || c[i] == ' ') && !IsUpper(c[i])
    requires forall i :: 0 <= i < |c| - 1 ==> !(IsSpace(c[i]) && IsSpace(c[i + 1]))
    ensures Normalized(Strip(c))
  {
    var r := Strip(c);
    var a := LeadingSpaces(c);
    forall i | 0 <= i < |r| - 1 ensures !(r[i] == ' ' && r[i + 1] == ' ') {
      assert r[i] == c[a + i] && r[i + 1] == c[a + i + 1];
    }
  }

  /** The output has no edge spaces, never two whitespace characters in a
      row, only word characters and plain spaces, and no upper case. */
  lemma {:induction false} PreprocessNormalized(text: string)
    ensures Normalized(Preprocess(text))
  {
    LowerReplaceShape(text);
    CollapseShape(ReplaceNonWord(Lower(text)));
    StripShape(CollapseWhitespace(ReplaceNonWord(Lower(text))));
  }

  /** Preprocessing keeps the words: its non-whitespace characters are
      those of the lower-cased text with punctuation replaced, in order. */
  lemma PreprocessKeepsWords(text: string)
    ensures NonSpace(Preprocess(text)) == NonSpace(ReplaceNonWord(Lower(text)))
  {
    var p := ReplaceNonWord(Lower(text));
    CollapseKeepsWords(p);
    StripKeepsWords(CollapseWhitespace(p));
  }

  lemma {:induction false} CollapseFixed(s: string)
    requires forall i :: 0 <= i < |s| ==> IsSpace(s[i]) ==> s[i] == ' '
    requires forall i :: 0 <= i < |s| - 1 ==> !(s[i] == ' ' && s[i + 1] == ' ')
    ensures CollapseWhitespace(s) == s
  {
    if s != [] {
      CollapseFixed(s[1..]);
      assert s == [s[0]] + s[1..];
    }
  }

  /** A normalized string is left unchanged by the pipeline. */
  lemma {:induction false} PreprocessFixesNormalized(s: string)
    requires Normalized(s)
    ensures Preprocess(s) == s
  {
    var l := Lower(s);
    assert forall i :: 0 <= i < |s| ==> l[i] == s[i];
    assert l == s;
    var p := ReplaceNonWord(s);
    assert forall i :: 0 <= i < |s| ==> p[i] == s[i];
    assert p == s;
    CollapseFixed(s);
    assert Strip(s) == s by {
      if s != [] {
        assert LeadingSpaces(s) == 0;
        assert EndWithoutSpaces(s) == |s|;
      }
    }
  }

  /** Applying the preprocessing twice gives the same result as once. */
  lemma {:induction false} PreprocessIdempotent(text: string)
    ensures Preprocess(Preprocess(text)) == Preprocess(text)
  {
    PreprocessNormalized(text);
    PreprocessFixesNormalized(Preprocess(text));
  }

  lemma {:induction false} CollapseWord(t: string, u: string)
    requires forall i :: 0 <= i < |t| ==> !IsSpace(t[i])
    ensures CollapseWhitespace(t + u) == t + CollapseWhitespace(u)
  {
    if t != [] {
      assert (t + u)[1..] == t[1..] + u;
      assert (t + u)[0] == t[0];
      assert t == [t[0]] + t[1..];
      assert !IsSpace((t + u)[0]);
      assert CollapseWhitespace(t + u) == [t[0]] + CollapseWhitespace(t[1..] + u);
      CollapseWord(t[1..], u);
      assert [t[0]] + (t[1..] + CollapseWhitespace(u)) == t + CollapseWhitespace(u);
    } else {
      assert t + u == u;
    }
  }

  lemma {:induction false} CollapseSpaces(t: string, u: string)
    requires t != [] && forall i :: 0 <= i < |t| ==> IsSpace(t[i])
    requires u != [] ==> !IsSpace(u[0])
    ensures CollapseWhitespace(t + u) == " " + CollapseWhitespace(u)
  {
    assert (t + u)[1..] == t[1..] + u;
    if |t| > 1 {
      CollapseSpaces(t[1..], u);
    }
  }

  /** Two words surrounded by runs of blanks collapse to single spaces. */
  lemma {:induction false} CollapseTwoWords(s1: string, a: string, s2: string, b: string, s3: string)
    requires s1 != [] && s2 != [] && s3 != [] && a != [] && b != []
    requires forall i :: 0 <= i < |s1| ==> IsSpace(s1[i])
    requires forall i :: 0 <= i < |s2| ==> IsSpace(s2[i])
    requires forall i :: 0 <= i < |s3| ==> IsSpace(s3[i])
    requires forall i :: 0 <= i < |a| ==> !IsSpace(a[i])
    requires forall i :: 0 <= i < |b| ==> !IsSpace(b[i])
    ensures CollapseWhitespace(s1 + a + s2 + b + s3) == " " + a + " " + b + " "
  {
    assert CollapseWhitespace(s3) == " " by {
      CollapseSpaces(s3, "");
      assert s3 + [] == s3;
    }
    var u2 := b + s3;
    assert CollapseWhitespace(u2) == b + " " by {
      CollapseWord(b, s3);
    }
    var u1 := s2 + u2;
    assert CollapseWhitespace(u1) == " " + (b + " ") by {
      assert u2[0] == b[0];
      CollapseSpaces(s2, u2);
    }
    var u0 := a + u1;
    assert CollapseWhitespace(u0) == a + (" " + (b + " ")) by {
      CollapseWord(a, u1);
    }
    assert CollapseWhitespace(s1 + u0) == " " + (a + (" " + (b + " "))) by {
      assert u0[0] == a[0];
      CollapseSpaces(s1, u0);
    }
    ConcatAssoc(s1, a, s2, b, s3);
    ConcatAssoc(" ", a, " ", b, " ");
  }

  lemma ConcatAssoc<T>(p: seq<T>, q: seq<T>, r: seq<T>, s: seq<T>, t: seq<T>)
    ensures p + q + r + s + t == p + (q + (r + (s + t)))
  {
  }

  lemma ExampleStrip()
    ensures Strip(" hello world ") == "hello world"
  {
    assert LeadingSpaces(" hello world ") == 1;
    assert EndWithoutSpaces(" hello world ") == 12;
  }

  lemma ExampleLower()
    ensures Lower("   Hello  World !!  ") == "   hello  world !!  "
  {
    var l := Lower("   Hello  World !!  ");
    assert forall i :: 0 <= i < |l| ==> l[i] == "   hello  world !!  "[i];
  }

  lemma ExampleReplace()
    ensures ReplaceNonWord("   hello  world !!  ") == "   hello  world     "
  {
    var p := ReplaceNonWord("   hello  world !!  ");
    assert forall i :: 0 <= i < |p| ==> p[i] == "   hello  world     "[i];
  }

  lemma ExampleCollapse()
    ensures CollapseWhitespace("   hello  world     ") == " hello world "
  {
    var s1, a, s2, b, s3 := "   ", "hello", "  ", "world", "     ";
    assert s1 + a + s2 + b + s3 == "   hello  world     ";
    assert " " + a + " " + b + " " == " hello world ";
    assert CollapseWhitespace(s1 + a + s2 + b + s3) == " " + a + " " + b + " " by {
      CollapseTwoWords(s1, a, s2, b, s3);
    }
  }

  /** The module's own example: "   Hello  World !!  " becomes "hello world". */
  lemma Example()
    ensures Preprocess("   Hello  World !!  ") == "hello world"
  {
    ExampleLower();
    ExampleReplace();
    ExampleCollapse();
    ExampleStrip();
  }
}
