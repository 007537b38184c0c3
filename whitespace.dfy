/**
 * String.prototype.trim: the characters it strips are the WhiteSpace and
 * LineTerminator code points of ECMA-262 (sections 12.2 and 12.3), the same
 * set StringToBigInt skips around a literal.
 */
module Whitespace {

  /** WhiteSpace (TAB, VT, FF, ZWNBSP and every "Zs" space) or LineTerminator (LF, CR, LS, PS). */
  predicate IsWhite(c: char) {
    c == '\t' || c == '\U{000B}' || c == '\U{000C}' || c == ' ' || c == '\U{00A0}' ||
    c == '\U{1680}' || ('\U{2000}' <= c <= '\U{200A}') || c == '\U{202F}' ||
    c == '\U{205F}' || c == '\U{3000}' || c == '\U{FEFF}' ||
    c == '\n' || c == '\r' || c == '\U{2028}' || c == '\U{2029}'
  }

  predicate AllWhite(s: string) {
    forall i :: 0 <= i < |s| ==> IsWhite(s[i])
  }

  /** `s` without its leading white space. */
  function TrimStart(s: string): string {
    if s == [] || !IsWhite(s[0]) then s else TrimStart(s[1..])
  }

  /** `s` without its trailing white space. */
  function TrimEnd(s: string): string {
    if s == [] || !IsWhite(s[|s| - 1]) then s else TrimEnd(s[..|s| - 1])
  }

  /** String.prototype.trim. */
  function Trim(s: string): string {
    TrimEnd(TrimStart(s))
  }

  /** TrimStart empties exactly the all-white text, and otherwise stops at a non-white character. */
  lemma {:induction false} TrimStartFacts(s: string)
    ensures TrimStart(s) == [] <==> AllWhite(s)
    ensures TrimStart(s) == [] || !IsWhite(TrimStart(s)[0])
  {
    if s != [] && IsWhite(s[0]) {
      TrimStartFacts(s[1..]);
      assert AllWhite(s[1..]) ==> AllWhite(s) by {
        if AllWhite(s[1..]) {
          forall i | 0 < i < |s| ensures IsWhite(s[i]) { assert s[i] == s[1..][i - 1]; }
        }
      }
    }
  }

  /** TrimStart removes a white prefix and nothing else. */
  lemma {:induction false} TrimStartInfix(s: string)
    ensures exists w :: AllWhite(w) && s == w + TrimStart(s)
  {
    if s != [] && IsWhite(s[0]) {
      TrimStartInfix(s[1..]);
      var w :| AllWhite(w) && s[1..] == w + TrimStart(s[1..]);
      var w' := [s[0]] + w;
      forall i | 0 < i < |w'| ensures IsWhite(w'[i]) { assert w'[i] == w[i - 1]; }
      assert TrimStart(s) == TrimStart(s[1..]);
      assert s == [s[0]] + s[1..];
      assert s == w' + TrimStart(s);
    } else {
      assert AllWhite([]) && s == [] + TrimStart(s);
    }
  }

  /** TrimEnd empties exactly the all-white text, and otherwise keeps the first character and stops at a non-white one. */
  lemma {:induction false} TrimEndFacts(s: string)
    ensures TrimEnd(s) == [] <==> AllWhite(s)
    ensures TrimEnd(s) == [] || (TrimEnd(s)[0] == s[0] && !IsWhite(TrimEnd(s)[|TrimEnd(s)| - 1]))
  {
    if s != [] && IsWhite(s[|s| - 1]) {
      var p := s[..|s| - 1];
      TrimEndFacts(p);
      assert AllWhite(p) ==> AllWhite(s) by {
        if AllWhite(p) {
          forall i | 0 <= i < |s| - 1 ensures IsWhite(s[i]) { assert s[i] == p[i]; }
        }
      }
      assert p != [] ==> p[0] == s[0];
    }
  }

  /** TrimEnd removes a white suffix and nothing else. */
  lemma {:induction false} TrimEndInfix(s: string)
    ensures exists w :: AllWhite(w) && s == TrimEnd(s) + w
  {
    if s != [] && IsWhite(s[|s| - 1]) {
      var p := s[..|s| - 1];
      TrimEndInfix(p);
      var w :| AllWhite(w) && p == TrimEnd(p) + w;
      var w' := w + [s[|s| - 1]];
      forall i | 0 <= i < |w| ensures IsWhite(w'[i]) { assert w'[i] == w[i]; }
      assert s == p + [s[|s| - 1]];
      assert s == TrimEnd(s) + w';
    } else {
      assert AllWhite([]) && s == TrimEnd(s) + [];
    }
  }

  /**
   * Trim removes a white prefix and a white suffix and keeps the rest: with
   * `TrimFacts` (the result is empty or bounded by non-white characters) this
   * fixes its result on every input.
   */
  lemma TrimInfix(s: string)
    ensures exists w1, w2 :: AllWhite(w1) && AllWhite(w2) && s == w1 + Trim(s) + w2
  {
    TrimStartInfix(s);
    var w1 :| AllWhite(w1) && s == w1 + TrimStart(s);
    TrimEndInfix(TrimStart(s));
    var w2 :| AllWhite(w2) && TrimStart(s) == TrimEnd(TrimStart(s)) + w2;
    assert s == w1 + Trim(s) + w2;
  }

  /** trim gives the empty string exactly for all-white text, and otherwise text bounded by non-white characters. */
  lemma TrimFacts(s: string)
    ensures Trim(s) == [] <==> AllWhite(s)
    ensures Trim(s) == [] || (!IsWhite(Trim(s)[0]) && !IsWhite(Trim(s)[|Trim(s)| - 1]))
  {
    var front := TrimStart(s);
    TrimStartFacts(s);
    TrimEndFacts(front);
    assert front == [] ==> AllWhite(front);
    assert front != [] ==> !AllWhite(front);
  }

  /** Text that already starts and ends with a non-white character is left as it is. */
  lemma TrimOfTrimmed(s: string)
    requires s == [] || (!IsWhite(s[0]) && !IsWhite(s[|s| - 1]))
    ensures Trim(s) == s
  {
  }

  /** Trimming twice is trimming once. */
  lemma TrimIdempotent(s: string)
    ensures Trim(Trim(s)) == Trim(s)
  {
    TrimFacts(s);
    TrimOfTrimmed(Trim(s));
  }

  lemma {:induction false} TrimStartAfterWhite(w: string, s: string)
    requires AllWhite(w)
    ensures TrimStart(w + s) == TrimStart(s)
  {
    if w != [] {
      var ws := w + s;
      assert IsWhite(ws[0]);
      assert TrimStart(ws) == TrimStart(ws[1..]);
      assert ws[1..] == w[1..] + s;
      TrimStartAfterWhite(w[1..], s);
    } else {
      assert w + s == s;
    }
  }

  lemma {:induction false} TrimEndBeforeWhite(s: string, w: string)
    requires AllWhite(w)
    ensures TrimEnd(s + w) == TrimEnd(s)
  {
    if w != [] {
      assert (s + w)[..|s + w| - 1] == s + w[..|w| - 1];
      TrimEndBeforeWhite(s, w[..|w| - 1]);
    } else {
      assert s + w == s;
    }
  }

  lemma {:induction false} TrimStartKeepsTail(s: string, w: string)
    requires !AllWhite(s)
    ensures TrimStart(s + w) == TrimStart(s) + w
  {
    if IsWhite(s[0]) {
      assert (s + w)[1..] == s[1..] + w;
      assert !AllWhite(s[1..]) by {
        var i :| 0 <= i < |s| && !IsWhite(s[i]);
        assert s[1..][i - 1] == s[i];
      }
      TrimStartKeepsTail(s[1..], w);
    }
  }

  /** White space around the text does not change what trim returns. */
  lemma TrimIgnoresPadding(w1: string, s: string, w2: string)
    requires AllWhite(w1) && AllWhite(w2)
    ensures Trim(w1 + s + w2) == Trim(s)
  {
    assert w1 + s + w2 == w1 + (s + w2);
    TrimStartAfterWhite(w1, s + w2);
    if AllWhite(s) {
      assert AllWhite(s + w2) by {
        forall i | 0 <= i < |s + w2| ensures IsWhite((s + w2)[i]) {
          if i < |s| { assert (s + w2)[i] == s[i]; } else { assert (s + w2)[i] == w2[i - |s|]; }
        }
      }
      TrimStartFacts(s + w2);
      TrimStartFacts(s);
    } else {
      TrimStartKeepsTail(s, w2);
      TrimEndBeforeWhite(TrimStart(s), w2);
    }
  }
}
