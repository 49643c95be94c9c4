/**
 * The normalisation step of `parse_lp_input`: every `<=` becomes `≤`, then
 * every `>=` becomes `≥`, then every space character is deleted.  Each step
 * is Python's left-to-right, non-overlapping `str.replace`.
 */
module Normalize {
  import opened Text

  /** True when `a` immediately followed by `b` occurs in `s`. */
  predicate HasPair(s: string, a: char, b: char) {
    exists i :: 0 <= i < |s| - 1 && s[i] == a && s[i + 1] == b
  }

  /** `s.count(x)`: the number of occurrences of `x`. */
  function Count(s: string, x: char): nat {
    if s == [] then 0 else (if s[0] == x then 1 else 0) + Count(s[1..], x)
  }

  /** A character occurs when its count is positive. */
  lemma {:induction false} CountIn(s: string, x: char)
    ensures Count(s, x) > 0 <==> x in s
  {
    if s != [] {
      CountIn(s[1..], x);
      assert s == [s[0]] + s[1..];
    }
  }

  /** `s.replace(a + b, [c])`. */
  function ReplacePair(s: string, a: char, b: char, c: char): (r: string)
    ensures |r| <= |s|
  {
    if |s| >= 2 && s[0] == a && s[1] == b then [c] + ReplacePair(s[2..], a, b, c)
    else if s == [] then []
    else [s[0]] + ReplacePair(s[1..], a, b, c)
  }

  /** The inverse rewriting: every `c` becomes `a` followed by `b`. */
  function ExpandChar(s: string, c: char, a: char, b: char): string {
    if s == [] then []
    else (if s[0] == c then [a, b] else [s[0]]) + ExpandChar(s[1..], c, a, b)
  }

  /** `s.replace(' ', '')`. */
  function DeleteSpaces(s: string): (r: string)
    ensures ' ' !in r
    ensures forall x :: x != ' ' ==> Count(r, x) == Count(s, x)
  {
    if s == [] then []
    else
      var rest := DeleteSpaces(s[1..]);
      if s[0] == ' ' then rest
      else
        var r := [s[0]] + rest;
        assert r[1..] == rest;
        r
  }

  /** Deleting spaces works piece by piece: the other characters keep their order. */
  lemma {:induction false} DeleteSpacesAppend(a: string, b: string)
    ensures DeleteSpaces(a + b) == DeleteSpaces(a) + DeleteSpaces(b)
  {
    if a != [] {
      assert (a + b)[1..] == a[1..] + b;
      DeleteSpacesAppend(a[1..], b);
    } else {
      assert a + b == b;
    }
  }

  /** A single character is dropped exactly when it is a space, and kept otherwise. */
  lemma DeleteSpacesChar(c: char)
    ensures DeleteSpaces([c]) == (if c == ' ' then [] else [c])
  {
  }

  /** Text without spaces is left as it is. */
  lemma {:induction false} DeleteSpacesNone(s: string)
    requires ' ' !in s
    ensures DeleteSpaces(s) == s
  {
    if s != [] {
      assert s == [s[0]] + s[1..];
      DeleteSpacesNone(s[1..]);
    }
  }

  /** The whole normalisation of `parse_lp_input`. */
  function Normalize(t: string): string {
    DeleteSpaces(Relations(t))
  }

  /** The two relation rewritings, before spaces are removed. */
  function Relations(t: string): string {
    ReplacePair(ReplacePair(t, '<', '=', LessEq), '>', '=', GreaterEq)
  }

  /** After replacing, no `a b` pair is left, provided `c` cannot pair with its neighbours. */
  lemma {:induction false} ReplaceLeavesNoPair(s: string, a: char, b: char, c: char)
    requires c != a && c != b
    ensures !HasPair(ReplacePair(s, a, b, c), a, b)
  {
    var r := ReplacePair(s, a, b, c);
    if |s| >= 2 && s[0] == a && s[1] == b {
      ReplaceLeavesNoPair(s[2..], a, b, c);
      var rest := ReplacePair(s[2..], a, b, c);
      assert forall i :: 1 <= i < |r| - 1 ==> r[i] == rest[i - 1] && r[i + 1] == rest[i];
    } else if s != [] {
      ReplaceLeavesNoPair(s[1..], a, b, c);
      var rest := ReplacePair(s[1..], a, b, c);
      assert forall i :: 1 <= i < |r| - 1 ==> r[i] == rest[i - 1] && r[i + 1] == rest[i];
      if |rest| > 0 {
        FirstOfReplace(s[1..], a, b, c);
      }
    }
  }

  /** The first character of a replacement: `c` when the text starts with the pair, else the text's own. */
  lemma FirstOfReplace(s: string, a: char, b: char, c: char)
    requires s != []
    ensures ReplacePair(s, a, b, c) != []
    ensures ReplacePair(s, a, b, c)[0] == if |s| >= 2 && s[0] == a && s[1] == b then c else s[0]
  {
  }

  /** Rewriting one pair creates no occurrence of another pair `x y` when `c` is neither. */
  lemma {:induction false} ReplaceKeepsNoPair(s: string, a: char, b: char, c: char, x: char, y: char)
    requires !HasPair(s, x, y)
    requires c != x && c != y
    ensures !HasPair(ReplacePair(s, a, b, c), x, y)
  {
    var r := ReplacePair(s, a, b, c);
    if |s| >= 2 && s[0] == a && s[1] == b {
      assert !HasPair(s[2..], x, y) by {
        var t := s[2..];
        assert forall i :: 0 <= i < |t| ==> t[i] == s[i + 2];
      }
      ReplaceKeepsNoPair(s[2..], a, b, c, x, y);
      var rest := ReplacePair(s[2..], a, b, c);
      assert forall i :: 1 <= i < |r| - 1 ==> r[i] == rest[i - 1] && r[i + 1] == rest[i];
    } else if s != [] {
      assert !HasPair(s[1..], x, y) by {
        var t := s[1..];
        assert forall i :: 0 <= i < |t| ==> t[i] == s[i + 1];
      }
      ReplaceKeepsNoPair(s[1..], a, b, c, x, y);
      var rest := ReplacePair(s[1..], a, b, c);
      assert forall i :: 1 <= i < |r| - 1 ==> r[i] == rest[i - 1] && r[i + 1] == rest[i];
      if |rest| > 0 {
        FirstOfReplace(s[1..], a, b, c);
      }
    }
  }

  /** Replacing is undone by expanding, as long as the text did not already contain `c`. */
  lemma {:induction false} ReplaceRoundTrip(s: string, a: char, b: char, c: char)
    requires c !in s
    ensures ExpandChar(ReplacePair(s, a, b, c), c, a, b) == s
  {
    if |s| >= 2 && s[0] == a && s[1] == b {
      assert s[2..] == s[1..][1..];
      ReplaceRoundTrip(s[2..], a, b, c);
      var r := ReplacePair(s, a, b, c);
      assert r[1..] == ReplacePair(s[2..], a, b, c);
      assert s == [a, b] + s[2..];
    } else if s != [] {
      ReplaceRoundTrip(s[1..], a, b, c);
      var r := ReplacePair(s, a, b, c);
      assert r[1..] == ReplacePair(s[1..], a, b, c);
      assert s == [s[0]] + s[1..];
    }
  }

  /** Replacing keeps the count of every character other than `a`, `b` and `c`. */
  lemma {:induction false} ReplaceKeepsOthers(s: string, a: char, b: char, c: char, x: char)
    requires x != a && x != b && x != c
    ensures Count(ReplacePair(s, a, b, c), x) == Count(s, x)
  {
    var r := ReplacePair(s, a, b, c);
    if |s| >= 2 && s[0] == a && s[1] == b {
      ReplaceKeepsOthers(s[2..], a, b, c, x);
      assert r[1..] == ReplacePair(s[2..], a, b, c);
      assert s[1..][1..] == s[2..];
    } else if s != [] {
      ReplaceKeepsOthers(s[1..], a, b, c, x);
      assert r[1..] == ReplacePair(s[1..], a, b, c);
    }
  }

  /** After the two rewritings neither `<=` nor `>=` remains. */
  lemma RelationsRewritten(t: string)
    ensures !HasPair(Relations(t), '<', '=')
    ensures !HasPair(Relations(t), '>', '=')
  {
    var once := ReplacePair(t, '<', '=', LessEq);
    ReplaceLeavesNoPair(t, '<', '=', LessEq);
    ReplaceKeepsNoPair(once, '>', '=', GreaterEq, '<', '=');
    ReplaceLeavesNoPair(once, '>', '=', GreaterEq);
  }

  /**
   * Normalisation deletes every space and keeps every other character that
   * it does not rewrite: tabs, newlines, letters in their case, digits, signs.
   */
  lemma NormalizeKeeps(t: string, x: char)
    requires x != ' ' && x != '<' && x != '>' && x != '=' && x != LessEq && x != GreaterEq
    ensures ' ' !in Normalize(t)
    ensures Count(Normalize(t), x) == Count(t, x)
  {
    var once := ReplacePair(t, '<', '=', LessEq);
    ReplaceKeepsOthers(t, '<', '=', LessEq, x);
    ReplaceKeepsOthers(once, '>', '=', GreaterEq, x);
  }

  /** When the text holds no relation symbol already, the rewriting loses nothing. */
  lemma RelationsRoundTrip(t: string)
    requires LessEq !in t && GreaterEq !in t
    ensures ExpandChar(ExpandChar(Relations(t), GreaterEq, '>', '='), LessEq, '<', '=') == t
  {
    var once := ReplacePair(t, '<', '=', LessEq);
    ReplaceKeepsOthers(t, '<', '=', LessEq, GreaterEq);
    CountIn(t, GreaterEq);
    CountIn(once, GreaterEq);
    ReplaceRoundTrip(once, '>', '=', GreaterEq);
    ReplaceRoundTrip(t, '<', '=', LessEq);
  }
}
