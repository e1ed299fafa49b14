/**
 * clean_recipe_content: the chain applied to every exported recipe text.
 * Non-breaking spaces become spaces, the text is stripped of surrounding
 * whitespace, CRLF and then lone CR become LF, and every character that is
 * neither printable nor LF is dropped, in that order.
 */
module Sanitizer {

  const Nbsp: char := '\U{00A0}'

  /**
   * Python's str.isspace: the characters str.strip removes when called
   * without arguments.
   */
  predicate IsSpace(c: char) {
    c == ' ' || ('\t' <= c <= '\r') || ('\U{1C}' <= c <= '\U{1F}')
    || c == '\U{85}' || c == Nbsp || c == '\U{1680}'
    || ('\U{2000}' <= c <= '\U{200A}') || c == '\U{2028}' || c == '\U{2029}'
    || c == '\U{202F}' || c == '\U{205F}' || c == '\U{3000}'
  }

  /**
   * Python's str.isprintable, approximated: control characters, every
   * separator except the ordinary space, the common format characters and the
   * private-use block of the Basic Multilingual Plane are not printable.
   */
  predicate IsPrintable(c: char) {
    !(c < ' ' || ('\U{7F}' <= c <= '\U{9F}')
      || (IsSpace(c) && c != ' ')
      || c == '\U{AD}' || ('\U{600}' <= c <= '\U{605}') || c == '\U{61C}' || c == '\U{6DD}'
      || c == '\U{70F}' || c == '\U{180E}'
      || ('\U{200B}' <= c <= '\U{200F}') || ('\U{202A}' <= c <= '\U{202E}')
      || ('\U{2060}' <= c <= '\U{206F}') || ('\U{E000}' <= c <= '\U{F8FF}')
      || c == '\U{FEFF}' || ('\U{FFF9}' <= c <= '\U{FFFB}'))
  }

  /** What the final filter keeps: `x.isprintable() or x in '\n'`. */
  predicate Kept(c: char) { IsPrintable(c) || c == '\n' }

  predicate AllSpace(s: string) { forall i :: 0 <= i < |s| ==> IsSpace(s[i]) }

  /** filter(p, s) joined back into a string: the characters satisfying p, in order. */
  function Filter(s: string, p: char -> bool): (r: string)
    ensures |r| <= |s|
    ensures forall i :: 0 <= i < |r| ==> p(r[i])
    ensures forall c :: c in r ==> c in s
  {
    if s == [] then [] else (if p(s[0]) then [s[0]] else []) + Filter(s[1..], p)
  }

  /** content.replace('\u00a0', ' '): every NBSP becomes an ordinary space. */
  function ReplaceNbsp(s: string): (r: string)
    ensures |r| == |s| && Nbsp !in r
    ensures forall i :: 0 <= i < |s| && s[i] != Nbsp ==> r[i] == s[i]
    ensures forall i :: 0 <= i < |s| && s[i] == Nbsp ==> r[i] == ' '
  {
    seq(|s|, i requires 0 <= i < |s| => if s[i] == Nbsp then ' ' else s[i])
  }

  /** The number of whitespace characters at the start of s. */
  function LeadingSpace(s: string): (n: nat)
    ensures n <= |s| && AllSpace(s[..n])
    ensures n < |s| ==> !IsSpace(s[n])
  {
    if s == [] || !IsSpace(s[0]) then 0
    else
      var n := 1 + LeadingSpace(s[1..]);
      assert s[..n] == [s[0]] + s[1..][..n - 1];
      n
  }

  /** The number of whitespace characters at the end of s. */
  function TrailingSpace(s: string): (n: nat)
    ensures n <= |s| && AllSpace(s[|s| - n..])
    ensures n < |s| ==> !IsSpace(s[|s| - 1 - n])
  {
    if s == [] || !IsSpace(s[|s| - 1]) then 0
    else
      var t := s[..|s| - 1];
      var n := 1 + TrailingSpace(t);
      assert s[|s| - n..] == t[|t| - (n - 1)..] + [s[|s| - 1]];
      n
  }

  /**
   * str.strip(): the slice of s between its leading and trailing whitespace.
   * The three ensures determine the result: a slice with only whitespace
   * outside it, neither starting nor ending with whitespace.
   */
  function Strip(s: string): (r: string)
    ensures exists i, j :: 0 <= i <= j <= |s| && r == s[i..j] && AllSpace(s[..i]) && AllSpace(s[j..])
    ensures r == [] || (!IsSpace(r[0]) && !IsSpace(r[|r| - 1]))
    ensures r == [] <==> AllSpace(s)
  {
    var i := LeadingSpace(s);
    var t := s[i..];
    var n := TrailingSpace(t);
    var j := |s| - n;
    assert s[j..] == t[|t| - n..];
    assert t[..|t| - n] == s[i..j];
    StripEnds(s, i, j);
    s[i..j]
  }

  /** The slice between the leading and the trailing whitespace. */
  lemma StripEnds(s: string, i: nat, j: nat)
    requires i <= |s| && AllSpace(s[..i]) && (i < |s| ==> !IsSpace(s[i]))
    requires i <= j <= |s| && AllSpace(s[j..]) && (i < j ==> !IsSpace(s[j - 1]))
    requires i < |s| ==> i < j
    ensures s[i..j] == [] || (!IsSpace(s[i..j][0]) && !IsSpace(s[i..j][j - i - 1]))
    ensures s[i..j] == [] <==> AllSpace(s)
  {
    if i == |s| {
      assert s[..i] == s;
    } else {
      assert !AllSpace(s) by { assert !IsSpace(s[i]); }
    }
  }

  /**
   * content.replace('\r\n', '\n'): each CR LF pair, scanned left to right,
   * becomes one LF. The cases of one character and of one pair, together with
   * ReplaceCrlfAppend, determine the result on every string; CrlfKeepsOthers
   * says that every character other than CR survives in order.
   */
  function ReplaceCrlf(s: string): (r: string)
    ensures |r| <= |s|
    ensures '\r' in r ==> '\r' in s
    ensures |s| == 1 ==> r == s
    ensures s == "\r\n" ==> r == "\n"
  {
    if |s| >= 2 && s[0] == '\r' && s[1] == '\n' then
      var r := ['\n'] + ReplaceCrlf(s[2..]);
      assert s[1..][1..] == s[2..];
      r
    else if s == [] then []
    else
      var r := [s[0]] + ReplaceCrlf(s[1..]);
      assert r[1..] == ReplaceCrlf(s[1..]);
      r
  }

  /**
   * .replace('\r', '\n'): every remaining CR becomes LF and nothing else
   * changes; CrKeepsOthers states what that keeps under a filter.
   */
  function ReplaceCr(s: string): (r: string)
    ensures |r| == |s| && '\r' !in r
    ensures forall i :: 0 <= i < |s| && s[i] != '\r' ==> r[i] == s[i]
    ensures forall i :: 0 <= i < |s| && s[i] == '\r' ==> r[i] == '\n'
  {
    if s == [] then []
    else
      var r := [if s[0] == '\r' then '\n' else s[0]] + ReplaceCr(s[1..]);
      assert r[1..] == ReplaceCr(s[1..]);
      r
  }

  /** clean_recipe_content. */
  function CleanRecipeContent(content: string): (r: string)
    ensures '\r' !in r && Nbsp !in r
    ensures forall i :: 0 <= i < |r| ==> IsPrintable(r[i]) || r[i] == '\n'
    ensures |r| <= |content|
  {
    var stripped := Strip(ReplaceNbsp(content));
    Filter(ReplaceCr(ReplaceCrlf(stripped)), Kept)
  }

  /**
   * The CRLF replacement works piecewise, except across a split that cuts a
   * CR LF pair in two.
   */
  lemma {:induction false} ReplaceCrlfAppend(a: string, b: string)
    requires !(a != [] && b != [] && a[|a| - 1] == '\r' && b[0] == '\n')
    ensures ReplaceCrlf(a + b) == ReplaceCrlf(a) + ReplaceCrlf(b)
  {
    if a == [] {
      assert a + b == b;
    } else if |a| >= 2 && a[0] == '\r' && a[1] == '\n' {
      var ab := a + b;
      assert ab[0] == '\r' && ab[1] == '\n' && ab[2..] == a[2..] + b;
      calc {
        ReplaceCrlf(ab);
      == { CrlfUnfoldPair(ab); }
        ['\n'] + ReplaceCrlf(a[2..] + b);
      == { assert a[2..] == [] || a[2..][|a[2..]| - 1] == a[|a| - 1];
           ReplaceCrlfAppend(a[2..], b); }
        ['\n'] + (ReplaceCrlf(a[2..]) + ReplaceCrlf(b));
      == { Associative(['\n'], ReplaceCrlf(a[2..]), ReplaceCrlf(b)); }
        (['\n'] + ReplaceCrlf(a[2..])) + ReplaceCrlf(b);
      == { CrlfUnfoldPair(a); }
        ReplaceCrlf(a) + ReplaceCrlf(b);
      }
    } else {
      var ab := a + b;
      assert ab[1..] == a[1..] + b by {
        assert a == [a[0]] + a[1..];
        Associative([a[0]], a[1..], b);
      }
      assert !(|ab| >= 2 && ab[0] == '\r' && ab[1] == '\n') by {
        if |a| == 1 && b != [] {
          assert ab[1] == b[0];
        } else if |a| >= 2 {
          assert ab[1] == a[1];
        }
      }
      calc {
        ReplaceCrlf(ab);
      == { CrlfUnfoldOne(ab); }
        [a[0]] + ReplaceCrlf(a[1..] + b);
      == { assert a[1..] == [] || a[1..][|a[1..]| - 1] == a[|a| - 1];
           ReplaceCrlfAppend(a[1..], b); }
        [a[0]] + (ReplaceCrlf(a[1..]) + ReplaceCrlf(b));
      == { Associative([a[0]], ReplaceCrlf(a[1..]), ReplaceCrlf(b)); }
        ([a[0]] + ReplaceCrlf(a[1..])) + ReplaceCrlf(b);
      == { CrlfUnfoldOne(a); }
        ReplaceCrlf(a) + ReplaceCrlf(b);
      }
    }
  }

  lemma Associative(x: string, y: string, z: string)
    ensures x + (y + z) == (x + y) + z
  {
  }

  lemma CrlfUnfoldPair(s: string)
    requires |s| >= 2 && s[0] == '\r' && s[1] == '\n'
    ensures ReplaceCrlf(s) == ['\n'] + ReplaceCrlf(s[2..])
  {
  }

  lemma CrlfUnfoldOne(s: string)
    requires s != [] && !(|s| >= 2 && s[0] == '\r' && s[1] == '\n')
    ensures ReplaceCrlf(s) == [s[0]] + ReplaceCrlf(s[1..])
  {
  }

  /**
   * Replacing CR LF by LF keeps, in order, every character a filter that
   * rejects CR lets through: in particular the printable characters and all
   * characters other than CR.
   */
  lemma {:induction false} CrlfKeepsOthers(s: string, p: char -> bool)
    requires !p('\r')
    ensures Filter(ReplaceCrlf(s), p) == Filter(s, p)
  {
    if |s| >= 2 && s[0] == '\r' && s[1] == '\n' {
      CrlfKeepsOthers(s[2..], p);
      assert s[1..][1..] == s[2..];
      assert ReplaceCrlf(s) == ['\n'] + ReplaceCrlf(s[2..]);
      FilterAppend(['\n'], ReplaceCrlf(s[2..]), p);
    } else if s != [] {
      CrlfKeepsOthers(s[1..], p);
      assert ReplaceCrlf(s) == [s[0]] + ReplaceCrlf(s[1..]);
      FilterAppend([s[0]], ReplaceCrlf(s[1..]), p);
    }
  }

  /** Replacing CR by LF keeps, in order, every character a filter that rejects both CR and LF lets through. */
  lemma {:induction false} CrKeepsOthers(s: string, p: char -> bool)
    requires !p('\r') && !p('\n')
    ensures Filter(ReplaceCr(s), p) == Filter(s, p)
  {
    if s != [] {
      CrKeepsOthers(s[1..], p);
      var c := if s[0] == '\r' then '\n' else s[0];
      assert ReplaceCr(s) == [c] + ReplaceCr(s[1..]);
      FilterAppend([c], ReplaceCr(s[1..]), p);
    }
  }

  /** Filtering by a stronger predicate after a weaker one is filtering by the stronger one alone. */
  lemma {:induction false} FilterTwice(s: string, weak: char -> bool, strong: char -> bool)
    requires forall c :: strong(c) ==> weak(c)
    ensures Filter(Filter(s, weak), strong) == Filter(s, strong)
  {
    if s != [] {
      FilterTwice(s[1..], weak, strong);
      FilterAppend(if weak(s[0]) then [s[0]] else [], Filter(s[1..], weak), strong);
    }
  }

  lemma {:induction false} FilterAppend(a: string, b: string, p: char -> bool)
    ensures Filter(a + b, p) == Filter(a, p) + Filter(b, p)
  {
    if a == [] {
      assert a + b == b;
    } else {
      assert (a + b)[0] == a[0] && (a + b)[1..] == a[1..] + b;
      FilterAppend(a[1..], b, p);
    }
  }

  /**
   * The printable characters of the output are exactly those of the stripped
   * input, in their original order: the normalisation and the filter only
   * touch CR, LF and non-printable characters.
   */
  lemma KeepsPrintableInterior(content: string)
    ensures Filter(CleanRecipeContent(content), IsPrintable) == Filter(Strip(ReplaceNbsp(content)), IsPrintable)
  {
    var normalised := ReplaceCr(ReplaceCrlf(Strip(ReplaceNbsp(content))));
    CrlfKeepsOthers(Strip(ReplaceNbsp(content)), IsPrintable);
    CrKeepsOthers(ReplaceCrlf(Strip(ReplaceNbsp(content))), IsPrintable);
    FilterTwice(normalised, Kept, IsPrintable);
  }

  /** Text already in clean form is returned unchanged. */
  lemma CleanTextIsFixed(s: string)
    requires forall i :: 0 <= i < |s| ==> Kept(s[i])
    requires s == [] || (!IsSpace(s[0]) && !IsSpace(s[|s| - 1]))
    ensures CleanRecipeContent(s) == s
  {
    CleanOfTrimmed(s);
    FilterAll(s, Kept);
  }

  lemma StripOfTrimmed(s: string)
    requires s == [] || (!IsSpace(s[0]) && !IsSpace(s[|s| - 1]))
    ensures Strip(s) == s
  {
    if s != [] {
      assert LeadingSpace(s) == 0;
      assert s[0..] == s;
      assert TrailingSpace(s) == 0;
    }
  }

  lemma {:induction false} NoCrFixed(s: string)
    requires '\r' !in s
    ensures ReplaceCrlf(s) == s && ReplaceCr(s) == s
  {
    if s != [] {
      assert '\r' !in s[1..] by { assert forall c :: c in s[1..] ==> c in s; }
      NoCrFixed(s[1..]);
      assert s == [s[0]] + s[1..];
    }
  }

  lemma {:induction false} FilterAll(s: string, p: char -> bool)
    requires forall i :: 0 <= i < |s| ==> p(s[i])
    ensures Filter(s, p) == s
  {
    if s != [] {
      FilterAll(s[1..], p);
      assert s == [s[0]] + s[1..];
    }
  }

  /**
   * Cleaning is not idempotent: the strip runs before the filter, so a space
   * left in front of a dropped control character survives the first pass.
   */
  lemma NotIdempotent()
    ensures CleanRecipeContent("a \U{1}") == "a "
    ensures CleanRecipeContent("a ") == "a"
  {
    CleanDropsTrailingControl();
    CleanStripsTrailingSpace();
  }

  lemma CleanDropsTrailingControl()
    ensures CleanRecipeContent("a \U{1}") == "a "
  {
    CleanOfTrimmed("a \U{1}");
    FilterDropsControl();
  }

  lemma FilterDropsControl()
    ensures Filter("a \U{1}", Kept) == "a "
  {
    FilterAppend("a ", "\U{1}", Kept);
    FilterAll("a ", Kept);
    assert "a \U{1}" == "a " + "\U{1}";
    assert Filter("\U{1}", Kept) == [];
  }

  /** Text that is already clean apart from being split into two lines. */
  predicate CleanLines(a: string, b: string) {
    && a != [] && b != [] && !IsSpace(a[0]) && !IsSpace(b[|b| - 1])
    && '\r' !in a && '\r' !in b && Nbsp !in a && Nbsp !in b
    && (forall i :: 0 <= i < |a| ==> Kept(a[i]))
    && (forall i :: 0 <= i < |b| ==> Kept(b[i]))
  }

  /** Two lines separated by CR LF come out separated by one LF. */
  lemma CrlfBecomesLineFeed(a: string, b: string)
    requires CleanLines(a, b)
    ensures CleanRecipeContent(a + "\r\n" + b) == a + "\n" + b
  {
    Unpadded(a, "\r\n", b);
    CleanOfUnpadded(a + "\r\n" + b);
    CrlfStep(a, b);
    Joined(a, b);
  }

  /** Two lines separated by a lone CR come out separated by one LF. */
  lemma CrBecomesLineFeed(a: string, b: string)
    requires CleanLines(a, b) && b[0] != '\n'
    ensures CleanRecipeContent(a + "\r" + b) == a + "\n" + b
  {
    Unpadded(a, "\r", b);
    CleanOfUnpadded(a + "\r" + b);
    LoneCrStep(a, b);
    LoneCrToLineFeed(a, b);
    Joined(a, b);
  }

  lemma CrlfStep(a: string, b: string)
    requires CleanLines(a, b)
    ensures ReplaceCrlf(a + "\r\n" + b) == a + "\n" + b
  {
    var tail := "\r\n" + b;
    assert a[|a| - 1] != '\r' by { assert a[|a| - 1] in a; }
    calc {
      ReplaceCrlf(a + "\r\n" + b);
    == { assert a + "\r\n" + b == a + tail; }
      ReplaceCrlf(a + tail);
    == { ReplaceCrlfAppend(a, tail); }
      ReplaceCrlf(a) + ReplaceCrlf(tail);
    == { NoCrFixed(a); ReplaceCrlfAppend("\r\n", b); NoCrFixed(b); }
      a + ("\n" + b);
    == { assert a + ("\n" + b) == a + "\n" + b; }
      a + "\n" + b;
    }
  }

  lemma LoneCrStep(a: string, b: string)
    requires CleanLines(a, b) && b[0] != '\n'
    ensures ReplaceCrlf(a + "\r" + b) == a + "\r" + b
  {
    var tail := "\r" + b;
    assert a[|a| - 1] != '\r' by { assert a[|a| - 1] in a; }
    calc {
      ReplaceCrlf(a + "\r" + b);
    == { assert a + "\r" + b == a + tail; }
      ReplaceCrlf(a + tail);
    == { ReplaceCrlfAppend(a, tail); }
      ReplaceCrlf(a) + ReplaceCrlf(tail);
    == { NoCrFixed(a); ReplaceCrlfAppend("\r", b); NoCrFixed(b); }
      a + ("\r" + b);
    == { assert a + ("\r" + b) == a + "\r" + b; }
      a + "\r" + b;
    }
  }

  lemma LoneCrToLineFeed(a: string, b: string)
    requires '\r' !in a && '\r' !in b
    ensures ReplaceCr(a + "\r" + b) == a + "\n" + b
  {
    var tail := "\r" + b;
    assert a + "\r" + b == a + tail;
    calc {
      ReplaceCr(a + tail);
    == { ReplaceCrAppend(a, tail); }
      ReplaceCr(a) + ReplaceCr(tail);
    == { NoCrFixed(a); CrThenRest(b); }
      a + ("\n" + b);
    }
    assert a + ("\n" + b) == a + "\n" + b;
  }

  lemma CrThenRest(b: string)
    requires '\r' !in b
    ensures ReplaceCr("\r" + b) == "\n" + b
  {
    ReplaceCrAppend("\r", b);
    NoCrFixed(b);
    CrOfCr();
  }

  lemma CrOfCr()
    ensures ReplaceCr("\r") == "\n"
  {
    var cr := "\r";
    assert cr[1..] == [];
    assert ReplaceCr(cr) == ['\n'] + ReplaceCr(cr[1..]);
  }

  lemma {:induction false} ReplaceCrAppend(a: string, b: string)
    ensures ReplaceCr(a + b) == ReplaceCr(a) + ReplaceCr(b)
  {
    if a == [] {
      assert a + b == b;
    } else {
      assert (a + b)[0] == a[0] && (a + b)[1..] == a[1..] + b;
      ReplaceCrAppend(a[1..], b);
    }
  }

  /** A separator between two clean lines adds no NBSP and no surrounding whitespace. */
  lemma Unpadded(a: string, sep: string, b: string)
    requires CleanLines(a, b) && Nbsp !in sep
    ensures var s := a + sep + b; Nbsp !in s && !IsSpace(s[0]) && !IsSpace(s[|s| - 1])
  {
    var s := a + sep + b;
    assert s[0] == a[0] && s[|s| - 1] == b[|b| - 1];
    assert forall c :: c in s ==> c in a || c in sep || c in b;
  }

  /** Two clean lines joined by LF pass the last two stages unchanged. */
  lemma Joined(a: string, b: string)
    requires CleanLines(a, b)
    ensures ReplaceCr(a + "\n" + b) == a + "\n" + b
    ensures Filter(a + "\n" + b, Kept) == a + "\n" + b
  {
    var t := a + "\n" + b;
    assert '\r' !in t;
    NoCrFixed(t);
    FilterAll(t, Kept);
  }

  /** On text with no NBSP and no surrounding whitespace the strip does nothing. */
  lemma CleanOfUnpadded(s: string)
    requires Nbsp !in s
    requires s == [] || (!IsSpace(s[0]) && !IsSpace(s[|s| - 1]))
    ensures CleanRecipeContent(s) == Filter(ReplaceCr(ReplaceCrlf(s)), Kept)
  {
    assert ReplaceNbsp(s) == s;
    StripOfTrimmed(s);
  }

  /** On text with no NBSP, no CR and no surrounding whitespace only the filter acts. */
  lemma CleanOfTrimmed(s: string)
    requires Nbsp !in s && '\r' !in s
    requires s == [] || (!IsSpace(s[0]) && !IsSpace(s[|s| - 1]))
    ensures CleanRecipeContent(s) == Filter(s, Kept)
  {
    assert ReplaceNbsp(s) == s;
    StripOfTrimmed(s);
    NoCrFixed(s);
  }

  lemma CleanStripsTrailingSpace()
    ensures CleanRecipeContent("a ") == "a"
  {
    var t := "a ";
    assert ReplaceNbsp(t) == t;
    assert LeadingSpace(t) == 0;
    assert t[0..] == t;
    assert t[..1] == "a";
    assert TrailingSpace(t) == 1;
    assert Strip(t) == "a";
    NoCrFixed("a");
    FilterAll("a", Kept);
  }
}
