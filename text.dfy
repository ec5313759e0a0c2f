/**
 * String helpers used by the board service: ECMAScript-style `trim` and the
 * e-mail normalisation (trim, then lower-case) applied to invitation e-mails.
 */
module Text {
  import opened Wrappers

  /** The characters ECMAScript's String.prototype.trim strips: WhiteSpace and LineTerminator. */
  predicate IsSpace(c: char)
  {
    c == '\t' || c == '\n' || c == '\U{000B}' || c == '\U{000C}' || c == '\r' || c == ' '
    || c == '\U{00A0}' || c == '\U{1680}' || ('\U{2000}' <= c <= '\U{200A}')
    || c == '\U{2028}' || c == '\U{2029}' || c == '\U{202F}' || c == '\U{205F}'
    || c == '\U{3000}' || c == '\U{FEFF}'
  }

  predicate IsUpper(c: char)
  {
    'A' <= c <= 'Z'
  }

  predicate AllSpace(s: string)
  {
    forall i :: 0 <= i < |s| ==> IsSpace(s[i])
  }

  /**
   * String.prototype.trim: strips whitespace from the start, then from the
   * end, one character at a time.
   */
  function Trim(s: string): (r: string)
    ensures |r| <= |s|
    ensures r == [] <==> AllSpace(s)
    ensures r == [] || (!IsSpace(r[0]) && !IsSpace(r[|r| - 1]))
    decreases |s|
  {
    if |s| > 0 && IsSpace(s[0]) then Trim(s[1..])
    else if |s| > 0 && IsSpace(s[|s| - 1]) then Trim(s[..|s| - 1])
    else s
  }

  /** `s` with an all-space prefix `p` and an all-space suffix `q` cut off is `r`. */
  ghost predicate Strips(s: string, r: string, p: nat, q: nat)
  {
    p + q <= |s| && r == s[p..|s| - q] && AllSpace(s[..p]) && AllSpace(s[|s| - q..])
  }

  /** A space in front of `s[1..]` lengthens the prefix to cut off by one. */
  lemma StripsFront(s: string, r: string, p: nat, q: nat)
    requires |s| > 0 && IsSpace(s[0]) && Strips(s[1..], r, p, q)
    ensures Strips(s, r, p + 1, q)
  {
    var t := s[1..];
    var u, v := s[p + 1..|s| - q], t[p..|t| - q];
    assert forall k :: 0 <= k < |u| ==> u[k] == v[k];
    assert u == v;
    assert s[..p + 1] == [s[0]] + t[..p];
    assert s[|s| - q..] == t[|t| - q..];
  }

  /** A space after `s[..|s| - 1]` lengthens the suffix to cut off by one. */
  lemma StripsBack(s: string, r: string, p: nat, q: nat)
    requires |s| > 0 && IsSpace(s[|s| - 1]) && Strips(s[..|s| - 1], r, p, q)
    ensures Strips(s, r, p, q + 1)
  {
    var t := s[..|s| - 1];
    assert s[p..|s| - (q + 1)] == t[p..|t| - q];
    assert s[..p] == t[..p];
    assert s[|s| - (q + 1)..] == t[|t| - q..] + [s[|s| - 1]];
  }

  /** The trim is what is left of `s` once an all-space prefix and an all-space suffix are cut off. */
  lemma {:induction false} TrimIsInfix(s: string)
    ensures exists p: nat, q: nat :: Strips(s, Trim(s), p, q)
    decreases |s|
  {
    if |s| > 0 && IsSpace(s[0]) {
      TrimIsInfix(s[1..]);
      var p: nat, q: nat :| Strips(s[1..], Trim(s[1..]), p, q);
      StripsFront(s, Trim(s), p, q);
    } else if |s| > 0 && IsSpace(s[|s| - 1]) {
      TrimIsInfix(s[..|s| - 1]);
      var p: nat, q: nat :| Strips(s[..|s| - 1], Trim(s[..|s| - 1]), p, q);
      StripsBack(s, Trim(s), p, q);
    } else {
      assert Strips(s, Trim(s), 0, 0);
    }
  }

  /** A string without surrounding whitespace is its own trim. */
  lemma TrimKeepsTrimmed(s: string)
    requires s == [] || (!IsSpace(s[0]) && !IsSpace(s[|s| - 1]))
    ensures Trim(s) == s
  {
  }

  /** Trimming twice is trimming once. */
  lemma TrimIdempotent(s: string)
    ensures Trim(Trim(s)) == Trim(s)
  {
    TrimKeepsTrimmed(Trim(s));
  }

  /** String.prototype.toLowerCase, restricted to the ASCII letters A to Z. */
  function LowerChar(c: char): (r: char)
    ensures !IsUpper(r)
    ensures IsUpper(c) ==> r as int == c as int + 32
    ensures IsUpper(c) || r == c
  {
    if IsUpper(c) then (c as int - 'A' as int + 'a' as int) as char else c
  }

  /** Lower-cases every character in place. */
  function ToLower(s: string): (r: string)
    ensures |r| == |s|
    ensures forall i :: 0 <= i < |s| ==> r[i] == LowerChar(s[i])
    ensures forall i :: 0 <= i < |r| ==> !IsUpper(r[i])
  {
    seq(|s|, i requires 0 <= i < |s| => LowerChar(s[i]))
  }

  /** Lower-casing turns no whitespace into a letter and no letter into whitespace. */
  lemma ToLowerKeepsSpaces(s: string)
    ensures forall i :: 0 <= i < |s| ==> (IsSpace(ToLower(s)[i]) <==> IsSpace(s[i]))
  {
    var r := ToLower(s);
    forall i | 0 <= i < |s| ensures IsSpace(r[i]) <==> IsSpace(s[i]) {
      assert r[i] == LowerChar(s[i]);
      if IsUpper(s[i]) {
        assert 'a' <= r[i] <= 'z';
      }
    }
  }

  /** Lower-casing a string without upper-case letters changes nothing. */
  lemma ToLowerOfLower(s: string)
    requires forall i :: 0 <= i < |s| ==> !IsUpper(s[i])
    ensures ToLower(s) == s
  {
    var r := ToLower(s);
    assert forall i :: 0 <= i < |s| ==> r[i] == LowerChar(s[i]) == s[i];
  }

  /**
   * normalizeEmail: a missing value reads as the empty string; the result is
   * trimmed and lower-cased.
   */
  function NormalizeEmail(e: Option<string>): (r: string)
    ensures e.None? ==> r == []
    ensures e.Some? ==> |r| <= |e.value|
    ensures forall i :: 0 <= i < |r| ==> !IsUpper(r[i])
  {
    var s := if e.Some? then e.value else "";
    ToLower(Trim(s))
  }

  /**
   * A normalised address neither starts nor ends with whitespace, and it is
   * empty exactly when the given value is missing or all whitespace.
   */
  lemma NormalizeEmailTrimmed(e: Option<string>)
    ensures NormalizeEmail(e) == [] <==> e.None? || AllSpace(e.value)
    ensures var r := NormalizeEmail(e); r == [] || (!IsSpace(r[0]) && !IsSpace(r[|r| - 1]))
  {
    var t := Trim(if e.Some? then e.value else "");
    var r := NormalizeEmail(e);
    assert r == ToLower(t);
    ToLowerKeepsSpaces(t);
    assert r != [] ==> IsSpace(r[0]) == IsSpace(t[0]) && IsSpace(r[|r| - 1]) == IsSpace(t[|t| - 1]);
  }

  /** Normalising an already normalised address changes nothing. */
  lemma NormalizeEmailIdempotent(e: Option<string>)
    ensures NormalizeEmail(Some(NormalizeEmail(e))) == NormalizeEmail(e)
  {
    var n := NormalizeEmail(e);
    NormalizeEmailTrimmed(e);
    TrimKeepsTrimmed(n);
    ToLowerOfLower(n);
  }

  /**
   * `r` is what lies in `s` between an all-space prefix `p` and an all-space
   * suffix `q`, each character lower-cased.
   */
  ghost predicate LowerStrips(s: string, r: string, p: nat, q: nat)
  {
    && p + q <= |s| && AllSpace(s[..p]) && AllSpace(s[|s| - q..])
    && |r| == |s| - p - q
    && forall i :: 0 <= i < |r| ==> r[i] == LowerChar(s[p + i])
  }

  /** What normalisation keeps of an address: the trimmed characters, each lower-cased. */
  lemma NormalizeEmailValue(s: string)
    ensures exists p: nat, q: nat :: LowerStrips(s, NormalizeEmail(Some(s)), p, q)
  {
    TrimIsInfix(s);
    var p: nat, q: nat :| Strips(s, Trim(s), p, q);
    var t := Trim(s);
    var r := NormalizeEmail(Some(s));
    assert r == ToLower(t);
    forall i | 0 <= i < |r| ensures r[i] == LowerChar(s[p + i]) {
      assert t[i] == s[p + i];
    }
    assert LowerStrips(s, r, p, q);
  }

  /** Two strings that agree once lower-cased trim to strings that agree once lower-cased. */
  lemma {:induction false} TrimCaseBlind(a: string, b: string)
    requires |a| == |b| && forall i :: 0 <= i < |a| ==> LowerChar(a[i]) == LowerChar(b[i])
    ensures |Trim(a)| == |Trim(b)|
    ensures forall i :: 0 <= i < |Trim(a)| ==> LowerChar(Trim(a)[i]) == LowerChar(Trim(b)[i])
    decreases |a|
  {
    if |a| > 0 {
      SpaceCaseBlind(a[0], b[0]);
      SpaceCaseBlind(a[|a| - 1], b[|b| - 1]);
    }
    if |a| > 0 && IsSpace(a[0]) {
      TrimCaseBlind(a[1..], b[1..]);
    } else if |a| > 0 && IsSpace(a[|a| - 1]) {
      TrimCaseBlind(a[..|a| - 1], b[..|b| - 1]);
    }
  }

  /** Characters that agree once lower-cased are both spaces or both not. */
  lemma SpaceCaseBlind(x: char, y: char)
    requires LowerChar(x) == LowerChar(y)
    ensures IsSpace(x) <==> IsSpace(y)
  {
    if IsUpper(x) {
      assert 'a' <= LowerChar(x) <= 'z';
    }
    if IsUpper(y) {
      assert 'a' <= LowerChar(y) <= 'z';
    }
  }

  /**
   * Addresses that differ only in the case of A to Z normalise to the same
   * address, whatever surrounds them.
   */
  lemma NormalizeEmailCaseBlind(a: string, b: string)
    requires |a| == |b| && forall i :: 0 <= i < |a| ==> LowerChar(a[i]) == LowerChar(b[i])
    ensures NormalizeEmail(Some(a)) == NormalizeEmail(Some(b))
  {
    TrimCaseBlind(a, b);
  }

  /** A worked instance: " Bob@X " normalises to "bob@x". */
  lemma NormalizeEmailExample()
    ensures NormalizeEmail(Some(" Bob@X ")) == "bob@x"
  {
    var s := " Bob@X ";
    assert Trim(s) == Trim(s[1..]) == Trim(s[1..][..5]) == "Bob@X";
  }
}
