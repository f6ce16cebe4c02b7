/** The string operations the URLs, error messages and the report are made of:
    decimal rendering of integers, splitting at a separator, and joining lines
    that each end with a terminator. */
module Text {
  import opened Results

  predicate IsDigit(c: char) {
    '0' <= c <= '9'
  }

  predicate AllDigits(s: string) {
    forall i | 0 <= i < |s| :: IsDigit(s[i])
  }

  predicate HasPrefix(s: string, prefix: string) {
    |prefix| <= |s| && s[..|prefix|] == prefix
  }

  lemma PrefixOfAppend(a: string, b: string)
    ensures HasPrefix(a + b, a)
    ensures (a + b)[|a|..] == b
  {
    assert (a + b)[..|a|] == a;
  }

  function DigitValue(c: char): nat
    requires IsDigit(c)
  {
    (c as int) - ('0' as int)
  }

  function DigitChar(d: nat): (c: char)
    requires d < 10
    ensures IsDigit(c) && DigitValue(c) == d
  {
    (('0' as int) + d) as char
  }

  /** The text `${n}` gives a non-negative integer: its decimal digits, with no
      leading zero. */
  function NatToString(n: nat): (s: string)
    ensures 1 <= |s| && AllDigits(s)
    ensures |s| > 1 ==> s[0] != '0'
    decreases n
  {
    if n < 10 then [DigitChar(n)] else NatToString(n / 10) + [DigitChar(n % 10)]
  }

  /** The number a string of decimal digits denotes. */
  function DigitsValue(s: string): nat
    requires AllDigits(s)
    decreases |s|
  {
    if s == [] then 0 else DigitsValue(s[..|s| - 1]) * 10 + DigitValue(s[|s| - 1])
  }

  lemma {:induction false} NatToStringRoundTrip(n: nat)
    ensures DigitsValue(NatToString(n)) == n
    decreases n
  {
    if n >= 10 {
      NatToStringRoundTrip(n / 10);
      var s := NatToString(n);
      assert s[..|s| - 1] == NatToString(n / 10);
    }
  }

  /** The text `${i}` gives an integer: a minus sign before the digits of a
      negative one. */
  function IntToString(i: int): (s: string)
    ensures i >= 0 ==> s == NatToString(i)
    ensures forall k | 0 <= k < |s| :: IsDigit(s[k]) || s[k] == '-'
  {
    if i < 0 then "-" + NatToString(-i) else NatToString(i)
  }

  /** The length of the run of digits that starts `s`. */
  function LeadingDigits(s: string): (n: nat)
    ensures n <= |s|
    decreases |s|
  {
    if s == [] || !IsDigit(s[0]) then 0 else 1 + LeadingDigits(s[1..])
  }

  /** The run is all digits and is followed by the end or a non-digit. */
  lemma {:induction false} LeadingDigitsFacts(s: string)
    ensures forall i | 0 <= i < LeadingDigits(s) :: IsDigit(s[i])
    ensures LeadingDigits(s) < |s| ==> !IsDigit(s[LeadingDigits(s)])
    decreases |s|
  {
    if s != [] && IsDigit(s[0]) {
      LeadingDigitsFacts(s[1..]);
      forall i | 1 <= i < LeadingDigits(s) ensures IsDigit(s[i]) {
        assert s[i] == s[1..][i - 1];
      }
    }
  }

  /** The run is determined by those two facts. */
  lemma {:induction false} LeadingDigitsIs(s: string, j: nat)
    requires j <= |s| && (forall i | 0 <= i < j :: IsDigit(s[i]))
    requires j < |s| ==> !IsDigit(s[j])
    ensures LeadingDigits(s) == j
    decreases |s|
  {
    if j > 0 {
      forall i | 0 <= i < j - 1 ensures IsDigit(s[1..][i]) {
        assert s[1..][i] == s[i + 1];
      }
      LeadingDigitsIs(s[1..], j - 1);
    }
  }

  /** The length of the run of digits that ends `s`. */
  function TrailingDigits(s: string): (n: nat)
    ensures n <= |s|
    ensures forall i | |s| - n <= i < |s| :: IsDigit(s[i])
    ensures n < |s| ==> !IsDigit(s[|s| - 1 - n])
    decreases |s|
  {
    if s == [] || !IsDigit(s[|s| - 1]) then 0 else 1 + TrailingDigits(s[..|s| - 1])
  }

  lemma TrailingDigitsIs(s: string, j: nat)
    requires j <= |s| && (forall i | |s| - j <= i < |s| :: IsDigit(s[i]))
    requires j < |s| ==> !IsDigit(s[|s| - 1 - j])
    ensures TrailingDigits(s) == j
  {
  }

  function StripSuffix(s: string, suffix: string): (r: Option<string>)
    ensures r.Some? ==> r.value + suffix == s
  {
    if |suffix| <= |s| && s[|s| - |suffix|..] == suffix then Some(s[..|s| - |suffix|]) else None
  }

  lemma StripSuffixOf(a: string, suffix: string)
    ensures StripSuffix(a + suffix, suffix) == Some(a)
  {
    var s := a + suffix;
    assert s[|s| - |suffix|..] == suffix;
    assert s[..|s| - |suffix|] == a;
  }

  /** Splits off the non-empty run of digits that ends `s`, with its value. */
  function StripTrailingNumber(s: string): Option<(string, nat)>
  {
    var n := TrailingDigits(s);
    if n == 0 then None
    else
      assert AllDigits(s[|s| - n..]);
      Some((s[..|s| - n], DigitsValue(s[|s| - n..])))
  }

  lemma StripTrailingNumberOf(a: string, n: nat)
    requires a == [] || !IsDigit(a[|a| - 1])
    ensures StripTrailingNumber(a + NatToString(n)) == Some((a, n))
  {
    var digits := NatToString(n);
    var s := a + digits;
    TrailingDigitsIs(s, |digits|);
    assert s[|s| - |digits|..] == digits;
    assert s[..|s| - |digits|] == a;
    NatToStringRoundTrip(n);
  }

  /** The length of the text before the first `sep` in `s` (all of `s` when
      there is none). */
  function FieldLength(s: string, sep: char): (n: nat)
    ensures n <= |s|
    decreases |s|
  {
    if s == [] || s[0] == sep then 0 else 1 + FieldLength(s[1..], sep)
  }

  /** The field holds no `sep` and is followed by the end or a `sep`. */
  lemma {:induction false} FieldLengthFacts(s: string, sep: char)
    ensures forall i | 0 <= i < FieldLength(s, sep) :: s[i] != sep
    ensures FieldLength(s, sep) < |s| ==> s[FieldLength(s, sep)] == sep
    decreases |s|
  {
    if s != [] && s[0] != sep {
      FieldLengthFacts(s[1..], sep);
      forall i | 1 <= i < FieldLength(s, sep) ensures s[i] != sep {
        assert s[i] == s[1..][i - 1];
      }
    }
  }

  /** The field length is determined by those two facts. */
  lemma {:induction false} FieldLengthIs(s: string, sep: char, j: nat)
    requires j <= |s| && (forall i | 0 <= i < j :: s[i] != sep)
    requires j < |s| ==> s[j] == sep
    ensures FieldLength(s, sep) == j
    decreases |s|
  {
    if j > 0 {
      forall i | 0 <= i < j - 1 ensures s[1..][i] != sep {
        assert s[1..][i] == s[i + 1];
      }
      FieldLengthIs(s[1..], sep, j - 1);
    }
  }

  /** The fields of `s` between occurrences of `sep`, as `String.prototype.split`
      gives them: one more field than there are separators. */
  function Split(s: string, sep: char): (fields: seq<string>)
    ensures |fields| >= 1
    decreases |s|
  {
    var n := FieldLength(s, sep);
    if n == |s| then [s] else [s[..n]] + Split(s[n + 1..], sep)
  }

  /** The inverse of `Split`: the fields with `sep` between them. The source
      never joins; `Join` is here only as the partner that `JoinSplit` and
      `SplitJoin` check `Split` against. */
  function Join(fields: seq<string>, sep: char): string
    requires |fields| >= 1
    decreases |fields|
  {
    if |fields| == 1 then fields[0] else fields[0] + [sep] + Join(fields[1..], sep)
  }

  lemma SplitWhole(s: string, sep: char)
    requires FieldLength(s, sep) == |s|
    ensures Split(s, sep) == [s]
  {
  }

  lemma SplitFirst(s: string, sep: char)
    ensures Split(s, sep)[0] == s[..FieldLength(s, sep)]
  {
    var n := FieldLength(s, sep);
    if n == |s| {
      assert s[..n] == s;
    }
  }

  lemma SplitMore(s: string, sep: char)
    ensures |Split(s, sep)| > 1 <==> FieldLength(s, sep) < |s|
  {
  }

  lemma SplitRest(s: string, sep: char)
    requires FieldLength(s, sep) < |s|
    ensures Split(s, sep)[1..] == Split(s[FieldLength(s, sep) + 1..], sep)
  {
  }

  /** The first field runs up to the first `sep`; there are more fields
      exactly when there is a `sep`, and they are the fields of what follows it. */
  lemma SplitHead(s: string, sep: char)
    ensures Split(s, sep)[0] == s[..FieldLength(s, sep)]
    ensures |Split(s, sep)| > 1 <==> FieldLength(s, sep) < |s|
    ensures FieldLength(s, sep) < |s| ==> Split(s, sep)[1..] == Split(s[FieldLength(s, sep) + 1..], sep)
  {
    SplitFirst(s, sep);
    SplitMore(s, sep);
    if FieldLength(s, sep) < |s| {
      SplitRest(s, sep);
    }
  }

  lemma SplitField(a: string, sep: char)
    requires sep !in a
    ensures Split(a, sep) == [a]
  {
    FieldLengthIs(a, sep, |a|);
  }

  lemma SplitCons(a: string, b: string, sep: char)
    requires sep !in a
    ensures Split(a + [sep] + b, sep) == [a] + Split(b, sep)
  {
    var s := a + [sep] + b;
    FieldLengthIs(s, sep, |a|);
    assert s[..|a|] == a;
    assert s[|a| + 1..] == b;
  }

  lemma Reassemble<T>(s: seq<T>, n: nat)
    requires n < |s|
    ensures s == s[..n] + [s[n]] + s[n + 1..]
  {
  }

  lemma JoinCons(a: string, fields: seq<string>, sep: char)
    requires |fields| >= 1
    ensures Join([a] + fields, sep) == a + [sep] + Join(fields, sep)
  {
    assert ([a] + fields)[1..] == fields;
  }

  lemma {:induction false} JoinSplit(s: string, sep: char)
    ensures Join(Split(s, sep), sep) == s
    decreases |s|
  {
    var n := FieldLength(s, sep);
    if n < |s| {
      var a, b := s[..n], s[n + 1..];
      calc {
        Join(Split(s, sep), sep);
      == { assert Split(s, sep) == [a] + Split(b, sep); }
        Join([a] + Split(b, sep), sep);
      == { JoinCons(a, Split(b, sep), sep); }
        a + [sep] + Join(Split(b, sep), sep);
      == { JoinSplit(b, sep); }
        a + [sep] + b;
      == { FieldLengthFacts(s, sep); Reassemble(s, n); }
        s;
      }
    } else {
      assert Split(s, sep) == [s];
    }
  }

  lemma {:induction false} SplitJoin(fields: seq<string>, sep: char)
    requires |fields| >= 1
    requires forall i | 0 <= i < |fields| :: sep !in fields[i]
    ensures Split(Join(fields, sep), sep) == fields
    decreases |fields|
  {
    if |fields| == 1 {
      SplitField(fields[0], sep);
    } else {
      SplitJoin(fields[1..], sep);
      SplitCons(fields[0], Join(fields[1..], sep), sep);
    }
  }

  /** Every line followed by `sep`, in order: what appending `${line}\n` to an
      accumulator line after line produces. */
  function Terminated(lines: seq<string>, sep: char): string
    decreases |lines|
  {
    if lines == [] then [] else Terminated(lines[..|lines| - 1], sep) + lines[|lines| - 1] + [sep]
  }

  /** One more line of a prefix adds that line and its terminator. */
  lemma TerminatedPrefix(lines: seq<string>, i: nat, sep: char)
    requires i < |lines|
    ensures Terminated(lines[..i + 1], sep) == Terminated(lines[..i], sep) + lines[i] + [sep]
  {
    assert lines[..i + 1][..i] == lines[..i];
  }

  lemma {:induction false} TerminatedCons(line: string, lines: seq<string>, sep: char)
    ensures Terminated([line] + lines, sep) == line + [sep] + Terminated(lines, sep)
    decreases |lines|
  {
    var all := [line] + lines;
    if lines == [] {
      assert all[..0] == [];
    } else {
      assert all[..|all| - 1] == [line] + lines[..|lines| - 1];
      TerminatedCons(line, lines[..|lines| - 1], sep);
    }
  }

  lemma {:induction false} TerminatedAppend(a: seq<string>, b: seq<string>, sep: char)
    ensures Terminated(a + b, sep) == Terminated(a, sep) + Terminated(b, sep)
    decreases |b|
  {
    if b == [] {
      assert a + b == a;
    } else {
      var ab := a + b;
      assert ab[..|ab| - 1] == a + b[..|b| - 1];
      TerminatedAppend(a, b[..|b| - 1], sep);
    }
  }

  lemma TerminatedFive(a: string, b: string, c: string, d: string, e: string, sep: char)
    ensures Terminated([a, b, c, d, e], sep) == a + [sep] + b + [sep] + c + [sep] + d + [sep] + e + [sep]
  {
    var lines := [a, b, c, d, e];
    assert lines[..4] == [a, b, c, d];
    assert [a, b, c, d][..3] == [a, b, c];
    assert [a, b, c][..2] == [a, b];
    assert [a, b][..1] == [a];
    assert [a][..0] == [];
    assert Terminated([a], sep) == a + [sep];
    assert Terminated([a, b], sep) == a + [sep] + b + [sep];
    assert Terminated([a, b, c], sep) == a + [sep] + b + [sep] + c + [sep];
    assert Terminated([a, b, c, d], sep) == a + [sep] + b + [sep] + c + [sep] + d + [sep];
  }

  /** Splitting terminated lines at the terminator gives the lines back, and
      one empty field after the last terminator. */
  lemma {:induction false} SplitTerminated(lines: seq<string>, sep: char)
    requires forall i | 0 <= i < |lines| :: sep !in lines[i]
    ensures Split(Terminated(lines, sep), sep) == lines + [[]]
    decreases |lines|
  {
    if lines == [] {
      SplitField([], sep);
    } else {
      assert lines == [lines[0]] + lines[1..];
      TerminatedCons(lines[0], lines[1..], sep);
      SplitTerminated(lines[1..], sep);
      SplitCons(lines[0], Terminated(lines[1..], sep), sep);
    }
  }
}
