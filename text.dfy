/**
 * The string operations the circuit driver relies on, with JavaScript's
 * meaning: `split` on one separator character, `join`, `replace` with a string
 * pattern (first occurrence only), `toLowerCase`, and the conversion of an
 * operand token to a number that loose equality `==` performs.
 */
module Text {

  // ---------------------------------------------------------------------------
  // split and join

  /**
   * The pieces of s between occurrences of sep, in order. Empty pieces are
   * kept, so there is always one piece more than there are separators.
   */
  function Split(s: string, sep: char): (parts: seq<string>)
    ensures |parts| >= 1
    decreases |s|
  {
    if |s| == 0 then [""]
    else
      var rest := Split(s[1..], sep);
      if s[0] == sep then [""] + rest else [[s[0]] + rest[0]] + rest[1..]
  }

  /** The parts with sep between each two consecutive parts. */
  function Join(parts: seq<string>, sep: string): string
  {
    if |parts| == 0 then ""
    else if |parts| == 1 then parts[0]
    else parts[0] + sep + Join(parts[1..], sep)
  }

  /** No piece of a split holds the separator. */
  lemma {:induction false} SplitAvoidsSeparator(s: string, sep: char)
    ensures forall t :: 0 <= t < |Split(s, sep)| ==> sep !in Split(s, sep)[t]
    decreases |s|
  {
    if |s| > 0 {
      SplitAvoidsSeparator(s[1..], sep);
    }
  }

  /** Joining the pieces with the separator gives back the string. */
  lemma {:induction false} JoinSplit(s: string, sep: char)
    ensures Join(Split(s, sep), [sep]) == s
    decreases |s|
  {
    if |s| > 0 {
      var rest := Split(s[1..], sep);
      JoinSplit(s[1..], sep);
      if s[0] == sep {
        assert Join([""] + rest, [sep]) == "" + [sep] + Join(rest, [sep]);
      } else if |rest| == 1 {
        assert Split(s, sep) == [[s[0]] + rest[0]];
      } else {
        var parts := [[s[0]] + rest[0]] + rest[1..];
        assert parts[1..] == rest[1..];
        assert Join(rest, [sep]) == rest[0] + [sep] + Join(rest[1..], [sep]);
      }
    }
  }

  /** A separator-free prefix glues onto the first piece of what follows it. */
  lemma {:induction false} SplitPrefix(p: string, rest: string, sep: char)
    requires sep !in p
    ensures Split(p + rest, sep) == [p + Split(rest, sep)[0]] + Split(rest, sep)[1..]
    decreases |p|
  {
    if |p| > 0 {
      var S := Split(rest, sep);
      SplitPrefix(p[1..], rest, sep);
      assert p[0] in p;
      assert (p + rest)[0] == p[0] != sep;
      assert (p + rest)[1..] == p[1..] + rest;
      var R := Split(p[1..] + rest, sep);
      assert Split(p + rest, sep) == [[p[0]] + R[0]] + R[1..];
      assert R == [p[1..] + S[0]] + S[1..];
      assert R[0] == p[1..] + S[0] && R[1..] == S[1..];
      assert [p[0]] + (p[1..] + S[0]) == p + S[0];
      assert [[p[0]] + R[0]] + R[1..] == [p + S[0]] + S[1..];
    } else {
      assert p + rest == rest && p + Split(rest, sep)[0] == Split(rest, sep)[0];
      assert Split(rest, sep) == [Split(rest, sep)[0]] + Split(rest, sep)[1..];
    }
  }

  /** Splitting separator-free parts joined by the separator gives back the parts. */
  lemma {:induction false} SplitJoin(parts: seq<string>, sep: char)
    requires |parts| >= 1 && forall t :: 0 <= t < |parts| ==> sep !in parts[t]
    ensures Split(Join(parts, [sep]), sep) == parts
    decreases |parts|
  {
    if |parts| == 1 {
      SplitPrefix(parts[0], "", sep);
      assert parts[0] + "" == parts[0];
    } else {
      var tail := Join(parts[1..], [sep]);
      SplitJoin(parts[1..], sep);
      assert Join(parts, [sep]) == parts[0] + ([sep] + tail);
      SplitPrefix(parts[0], [sep] + tail, sep);
      assert ([sep] + tail)[0] == sep && ([sep] + tail)[1..] == tail;
      var T := Split([sep] + tail, sep);
      assert T == [""] + parts[1..];
      assert T[0] == "" && T[1..] == parts[1..];
      assert parts[0] + "" == parts[0];
      assert parts == [parts[0]] + parts[1..];
    }
  }

  // ---------------------------------------------------------------------------
  // replace

  /** pat occurs in s starting at k. */
  predicate OccursAt(s: string, pat: string, k: int)
  {
    0 <= k && k + |pat| <= |s| && s[k..k + |pat|] == pat
  }

  /** s with the first occurrence of pat replaced by rep, or s itself when pat does not occur. */
  function ReplaceFirst(s: string, pat: string, rep: string): string
    requires |pat| >= 1
    decreases |s|
  {
    if |s| < |pat| then s
    else if s[..|pat|] == pat then rep + s[|pat|..]
    else [s[0]] + ReplaceFirst(s[1..], pat, rep)
  }

  /** An occurrence in s[1..] is an occurrence in s one place further on. */
  lemma OccursShift(s: string, pat: string, m: int)
    requires |s| >= 1 && 0 <= m
    ensures OccursAt(s[1..], pat, m) <==> OccursAt(s, pat, m + 1)
  {
    if m + |pat| <= |s| - 1 {
      assert s[1..][m..m + |pat|] == s[m + 1..m + 1 + |pat|];
    }
  }

  /**
   * replace rewrites exactly the first occurrence: when pat first occurs at k,
   * the result is the text before k, then rep, then the text after that
   * occurrence.
   */
  lemma {:induction false} ReplaceFirstAt(s: string, pat: string, rep: string, k: nat)
    requires |pat| >= 1 && OccursAt(s, pat, k)
    requires forall m :: 0 <= m < k ==> !OccursAt(s, pat, m)
    ensures ReplaceFirst(s, pat, rep) == s[..k] + rep + s[k + |pat|..]
    decreases k
  {
    if k == 0 {
      assert s[..|pat|] == pat;
    } else {
      var t := s[1..];
      FirstOccurrenceShift(s, pat, k);
      ReplaceFirstAt(t, pat, rep, k - 1);
      SliceShift(s, k, |pat|);
      assert ReplaceFirst(s, pat, rep) == [s[0]] + ReplaceFirst(t, pat, rep);
      var a, b := t[..k - 1], t[k - 1 + |pat|..];
      assert [s[0]] + (a + rep + b) == ([s[0]] + a) + rep + b;
    }
  }

  /** A first occurrence at k > 0 is a first occurrence at k - 1 in s[1..], and s does not start with it. */
  lemma FirstOccurrenceShift(s: string, pat: string, k: nat)
    requires 1 <= k && OccursAt(s, pat, k)
    requires forall m :: 0 <= m < k ==> !OccursAt(s, pat, m)
    ensures |s| >= |pat| && s[..|pat|] != pat
    ensures OccursAt(s[1..], pat, k - 1)
    ensures forall m :: 0 <= m < k - 1 ==> !OccursAt(s[1..], pat, m)
  {
    assert !OccursAt(s, pat, 0);
    assert s[..|pat|] == s[0..|pat|];
    OccursShift(s, pat, k - 1);
    forall m | 0 <= m < k - 1 ensures !OccursAt(s[1..], pat, m) {
      OccursShift(s, pat, m);
    }
  }

  /** Cutting s[1..] at k - 1 is cutting s at k. */
  lemma SliceShift(s: string, k: nat, len: nat)
    requires 1 <= k && k + len <= |s|
    ensures [s[0]] + s[1..][..k - 1] == s[..k]
    ensures s[1..][k - 1 + len..] == s[k + len..]
  {
    assert s[1..][..k - 1] == s[1..k];
  }

  /** When pat does not occur, replace leaves the text as it is. */
  lemma {:induction false} ReplaceNone(s: string, pat: string, rep: string)
    requires |pat| >= 1 && forall m :: !OccursAt(s, pat, m)
    ensures ReplaceFirst(s, pat, rep) == s
    decreases |s|
  {
    if |s| >= |pat| {
      assert !OccursAt(s, pat, 0);
      forall m | 0 <= m ensures !OccursAt(s[1..], pat, m) {
        OccursShift(s, pat, m);
      }
      ReplaceNone(s[1..], pat, rep);
    }
  }

  /** pat does not occur in text that lacks one of its characters. */
  lemma AbsentCharNoOccurrence(s: string, pat: string, j: nat)
    requires j < |pat| && pat[j] !in s
    ensures forall m :: !OccursAt(s, pat, m)
  {
    forall m | OccursAt(s, pat, m) ensures false {
    }
  }

  /**
   * When the character pat[j] appears neither in a nor in pat before j, the
   * pat that follows a is the first occurrence, and it alone is replaced.
   */
  lemma ReplaceAfter(a: string, pat: string, b: string, rep: string, j: nat)
    requires j < |pat| && pat[j] !in a && pat[j] !in pat[..j]
    ensures ReplaceFirst(a + pat + b, pat, rep) == a + rep + b
  {
    var s := a + pat + b;
    assert s[|a|..|a| + |pat|] == pat;
    forall m | 0 <= m < |a| && OccursAt(s, pat, m) ensures false {
    }
    ReplaceFirstAt(s, pat, rep, |a|);
    assert s[..|a|] == a && s[|a| + |pat|..] == b;
  }

  /** Text without the first character of pat is left as it is. */
  lemma {:induction false} ReplaceAbsent(s: string, pat: string, rep: string)
    requires |pat| >= 1 && pat[0] !in s
    ensures ReplaceFirst(s, pat, rep) == s
    decreases |s|
  {
    if |s| >= |pat| {
      assert s[..|pat|][0] == s[0];
      ReplaceAbsent(s[1..], pat, rep);
    }
  }

  // ---------------------------------------------------------------------------
  // toLowerCase

  /** An ASCII capital letter becomes its small letter; every other character stays. */
  function LowerChar(c: char): char
  {
    if 'A' <= c <= 'Z' then (c as int + 32) as char else c
  }

  /** s with its ASCII capital letters made small. */
  function Lower(s: string): (t: string)
    ensures |t| == |s|
  {
    seq(|s|, k => if 0 <= k < |s| then LowerChar(s[k]) else ' ')
  }

  /** Lowering leaves no capital letter and lowering again changes nothing. */
  lemma LowerIsLower(s: string)
    ensures forall k :: 0 <= k < |s| ==> !('A' <= Lower(s)[k] <= 'Z')
    ensures Lower(Lower(s)) == Lower(s)
  {
  }

  // ---------------------------------------------------------------------------
  // Operands: string to number

  /** White space and line terminators as the conversion of a string to a number strips them. */
  predicate IsSpace(c: char)
  {
    var u := c as int;
    (9 <= u <= 13) || u == 0x20 || u == 0xA0 || u == 0x1680 || (0x2000 <= u <= 0x200A)
      || u == 0x2028 || u == 0x2029 || u == 0x202F || u == 0x205F || u == 0x3000 || u == 0xFEFF
  }

  /** s without its leading and trailing white space. */
  function Trim(s: string): (t: string)
    ensures |t| <= |s|
    decreases |s|
  {
    if |s| > 0 && IsSpace(s[0]) then Trim(s[1..])
    else if |s| > 0 && IsSpace(s[|s| - 1]) then Trim(s[..|s| - 1])
    else s
  }

  predicate IsDigit(c: char)
  {
    '0' <= c <= '9'
  }

  /** The value of a string of decimal digits. */
  function DigitsValue(s: string): nat
    requires forall k :: 0 <= k < |s| ==> IsDigit(s[k])
    decreases |s|
  {
    if |s| == 0 then 0
    else
      assert IsDigit(s[|s| - 1]);
      10 * DigitsValue(s[..|s| - 1]) + (s[|s| - 1] as int - '0' as int)
  }

  /**
   * The number an operand token stands for when compared with a qubit
   * position: a decimal numeral, possibly surrounded by white space, gives its
   * value; anything else gives 0, a value no qubit position (1 or more) has.
   */
  function Operand(token: string): int
  {
    var t := Trim(token);
    if |t| >= 1 && forall k :: 0 <= k < |t| ==> IsDigit(t[k]) then DigitsValue(t) else 0
  }

  /** The decimal numeral of k, without leading zeros. */
  function Decimal(k: nat): (s: string)
    ensures |s| >= 1 && forall m :: 0 <= m < |s| ==> IsDigit(s[m])
  {
    if k < 10 then [('0' as int + k) as char] else Decimal(k / 10) + [('0' as int + k % 10) as char]
  }

  /** Reading the numeral of k back as an operand gives k. */
  lemma {:induction false} OperandDecimal(k: nat)
    ensures Operand(Decimal(k)) == k
  {
    DecimalValue(k);
    var s := Decimal(k);
    assert !IsSpace(s[0]) && !IsSpace(s[|s| - 1]);
  }

  lemma {:induction false} DecimalValue(k: nat)
    ensures DigitsValue(Decimal(k)) == k
  {
    if k >= 10 {
      DecimalValue(k / 10);
      var s := Decimal(k);
      assert s[..|s| - 1] == Decimal(k / 10);
    }
  }

  /** Surrounding white space does not change the operand. */
  lemma OperandIgnoresSpace(w1: string, token: string, w2: string)
    requires forall k :: 0 <= k < |w1| ==> IsSpace(w1[k])
    requires forall k :: 0 <= k < |w2| ==> IsSpace(w2[k])
    ensures Operand(w1 + token + w2) == Operand(token)
  {
    assert w1 + token + w2 == w1 + (token + w2);
    TrimStart(w1, token + w2);
    TrimEnd(token, w2);
  }

  /** The last operand of a line read from a file with CRLF line ends: "1\r" is still 1. */
  lemma OperandCarriageReturn()
    ensures Operand("1\r") == 1
  {
    OperandDecimal(1);
    assert Decimal(1) == "1";
    assert "" + "1" + "\r" == "1\r";
    OperandIgnoresSpace("", "1", "\r");
  }

  /** Leading white space goes in the trim. */
  lemma {:induction false} TrimStart(w: string, s: string)
    requires forall k :: 0 <= k < |w| ==> IsSpace(w[k])
    ensures Trim(w + s) == Trim(s)
    decreases |w|
  {
    if |w| > 0 {
      assert (w + s)[0] == w[0];
      assert (w + s)[1..] == w[1..] + s;
      TrimStart(w[1..], s);
    } else {
      assert w + s == s;
    }
  }

  /** Trailing white space goes in the trim. */
  lemma {:induction false} TrimEnd(s: string, w: string)
    requires forall k :: 0 <= k < |w| ==> IsSpace(w[k])
    ensures Trim(s + w) == Trim(s)
    decreases |s| + |w|
  {
    if |s| > 0 && IsSpace(s[0]) {
      assert (s + w)[1..] == s[1..] + w;
      TrimEnd(s[1..], w);
    } else if |s| == 0 && |w| > 0 {
      assert s + w == w && s + w[1..] == w[1..];
      TrimEnd(s, w[1..]);
    } else if |w| > 0 {
      assert (s + w)[..|s + w| - 1] == s + w[..|w| - 1];
      if |s| > 0 {
        assert (s + w)[0] == s[0];
      }
      TrimEnd(s, w[..|w| - 1]);
    } else {
      assert s + w == s;
    }
  }
}
