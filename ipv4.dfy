/** The address check `fetchCoordsByIP` makes before any request: a match
    against /^\d{1,3}\.\d{1,3}\.\d{1,3}\.\d{1,3}$/. */
module Ipv4 {
  import opened Text

  /** One `\d{1,3}` group. */
  predicate IsOctetText(g: string) {
    1 <= |g| <= 3 && AllDigits(g)
  }

  /** The regular expression read left to right: `groups` groups of one to
      three digits, a dot between each two, nothing after the last. A group
      is followed by a dot or the end, neither a digit, so it takes the whole
      run of digits in front of it. */
  predicate MatchesGroups(s: string, groups: nat)
    requires groups >= 1
    decreases groups
  {
    var n := LeadingDigits(s);
    1 <= n <= 3 &&
    if groups == 1 then n == |s|
    else n < |s| && s[n] == '.' && MatchesGroups(s[n + 1..], groups - 1)
  }

  /** `ipAddress.match(validIPV4)` is non-null. */
  predicate IsValidIPv4(s: string) {
    MatchesGroups(s, 4)
  }

  /** Every field is one group of one to three digits. */
  predicate OctetFields(fields: seq<string>) {
    forall i | 0 <= i < |fields| :: IsOctetText(fields[i])
  }

  lemma OctetFieldsTail(fields: seq<string>)
    requires |fields| >= 1 && OctetFields(fields)
    ensures IsOctetText(fields[0]) && OctetFields(fields[1..])
  {
    forall i | 0 <= i < |fields| - 1 ensures IsOctetText(fields[1..][i]) {
      assert fields[1..][i] == fields[i + 1];
    }
  }

  /** A group ended by a dot or the end of the text is a field. */
  lemma GroupIsField(s: string)
    requires 1 <= LeadingDigits(s) <= 3
    requires LeadingDigits(s) < |s| ==> s[LeadingDigits(s)] == '.'
    ensures FieldLength(s, '.') == LeadingDigits(s)
    ensures IsOctetText(s[..LeadingDigits(s)])
  {
    var n := LeadingDigits(s);
    LeadingDigitsFacts(s);
    forall i | 0 <= i < n ensures s[i] != '.' {
      assert IsDigit(s[i]);
    }
    FieldLengthIs(s, '.', n);
    forall i | 0 <= i < n ensures IsDigit(s[..n][i]) {
      assert s[..n][i] == s[i];
    }
  }

  /** A field of one to three digits is a whole group. */
  lemma FieldIsGroup(s: string)
    requires IsOctetText(s[..FieldLength(s, '.')])
    ensures LeadingDigits(s) == FieldLength(s, '.')
  {
    var m := FieldLength(s, '.');
    FieldLengthFacts(s, '.');
    forall i | 0 <= i < m ensures IsDigit(s[i]) {
      assert s[..m][i] == s[i];
    }
    LeadingDigitsIs(s, m);
  }

  /** What a match of `k` groups says about the first group. */
  lemma MatchesFirst(s: string, k: nat)
    requires k >= 1 && MatchesGroups(s, k)
    ensures 1 <= LeadingDigits(s) <= 3
    ensures k == 1 ==> LeadingDigits(s) == |s|
    ensures k > 1 ==> LeadingDigits(s) < |s| && s[LeadingDigits(s)] == '.'
                      && MatchesGroups(s[LeadingDigits(s) + 1..], k - 1)
  {
  }

  lemma OctetFieldsPrepend(g: string, fields: seq<string>)
    requires IsOctetText(g) && OctetFields(fields)
    ensures OctetFields([g] + fields)
  {
    forall i | 0 <= i < |[g] + fields| ensures IsOctetText(([g] + fields)[i]) {
      if i > 0 {
        assert ([g] + fields)[i] == fields[i - 1];
      }
    }
  }

  lemma {:induction false} MatchesToFields(s: string, k: nat)
    requires k >= 1 && MatchesGroups(s, k)
    ensures |Split(s, '.')| == k && OctetFields(Split(s, '.'))
    decreases k, 1
  {
    if k == 1 {
      OneGroupIsOneField(s);
    } else {
      MoreGroupsAreMoreFields(s, k);
    }
  }

  lemma OneGroupIsOneField(s: string)
    requires MatchesGroups(s, 1)
    ensures Split(s, '.') == [s] && IsOctetText(s)
  {
    MatchesFirst(s, 1);
    GroupIsField(s);
    SplitWhole(s, '.');
    assert s[..LeadingDigits(s)] == s;
  }

  /** A match of more than one group is a group, a dot, and a match of the
      remaining groups. */
  lemma GroupsDecompose(s: string, k: nat) returns (g: string, rest: string)
    requires k > 1 && MatchesGroups(s, k)
    ensures s == g + "." + rest
    ensures IsOctetText(g) && MatchesGroups(rest, k - 1)
  {
    MatchesFirst(s, k);
    var n := LeadingDigits(s);
    GroupIsField(s);
    g, rest := s[..n], s[n + 1..];
    Reassemble(s, n);
  }

  lemma {:induction false} MoreGroupsAreMoreFields(s: string, k: nat)
    requires k > 1 && MatchesGroups(s, k)
    ensures |Split(s, '.')| == k && OctetFields(Split(s, '.'))
    decreases k, 0
  {
    var g, rest := GroupsDecompose(s, k);
    MatchesToFields(rest, k - 1);
    OctetHasNoDot(g);
    SplitCons(g, rest, '.');
    OctetFieldsPrepend(g, Split(rest, '.'));
  }

  lemma {:induction false} FieldsToMatches(s: string, k: nat)
    requires k >= 1 && |Split(s, '.')| == k && OctetFields(Split(s, '.'))
    ensures MatchesGroups(s, k)
    decreases k
  {
    var m := FieldLength(s, '.');
    var fields := Split(s, '.');
    SplitHead(s, '.');
    OctetFieldsTail(fields);
    FieldIsGroup(s);
    FieldLengthFacts(s, '.');
    if k > 1 {
      FieldsToMatches(s[m + 1..], k - 1);
    }
  }

  /** The check accepts exactly the strings made of four dot-separated fields
      of one to three ASCII digits each; it does not check their range. */
  lemma ValidIPv4Fields(s: string)
    ensures IsValidIPv4(s) <==> |Split(s, '.')| == 4 && OctetFields(Split(s, '.'))
  {
    if IsValidIPv4(s) {
      MatchesToFields(s, 4);
    }
    if |Split(s, '.')| == 4 && OctetFields(Split(s, '.')) {
      FieldsToMatches(s, 4);
    }
  }

  lemma OctetHasNoDot(g: string)
    requires IsOctetText(g)
    ensures '.' !in g
  {
  }

  /** Only regroups a concatenation, for `OctetsAccepted`. */
  lemma DottedAssociates(a: string, b: string, c: string, d: string)
    ensures a + "." + b + "." + c + "." + d == a + "." + (b + "." + (c + "." + d))
  {
  }

  lemma SplitOctets(a: string, b: string, c: string, d: string)
    requires IsOctetText(a) && IsOctetText(b) && IsOctetText(c) && IsOctetText(d)
    ensures Split(a + "." + (b + "." + (c + "." + d)), '.') == [a, b, c, d]
  {
    OctetHasNoDot(a);
    OctetHasNoDot(b);
    OctetHasNoDot(c);
    OctetHasNoDot(d);
    SplitField(d, '.');
    SplitCons(c, d, '.');
    SplitCons(b, c + "." + d, '.');
    SplitCons(a, b + "." + (c + "." + d), '.');
  }

  /** Any four groups of one to three digits joined by dots pass, and are the
      fields of the address. */
  lemma OctetsAccepted(a: string, b: string, c: string, d: string)
    requires IsOctetText(a) && IsOctetText(b) && IsOctetText(c) && IsOctetText(d)
    ensures IsValidIPv4(a + "." + b + "." + c + "." + d)
    ensures Split(a + "." + b + "." + c + "." + d, '.') == [a, b, c, d]
  {
    DottedAssociates(a, b, c, d);
    SplitOctets(a, b, c, d);
    var s := a + "." + b + "." + c + "." + d;
    assert OctetFields(Split(s, '.')) by {
      forall i | 0 <= i < 4 ensures IsOctetText([a, b, c, d][i]) {
      }
    }
    ValidIPv4Fields(s);
  }

  /** There is no range check: every group may be as large as 999, so
      999.999.999.999 passes. */
  lemma RangeNotChecked()
    ensures IsValidIPv4("999" + "." + "999" + "." + "999" + "." + "999")
  {
    var g := "999";
    assert IsOctetText(g);
    OctetsAccepted(g, g, g, g);
  }

  /** Three groups are too few. */
  lemma ThreeGroupsRejected()
    ensures !IsValidIPv4("999.1.2")
  {
    LeadingDigitsIs("999.1.2", 3);
    assert "999.1.2"[4..] == "1.2";
    LeadingDigitsIs("1.2", 1);
    assert "1.2"[2..] == "2";
    LeadingDigitsIs("2", 1);
  }

  /** A group of four digits is refused. */
  lemma LongGroupRejected()
    ensures !IsValidIPv4("1234.1.1.1")
  {
    LeadingDigitsIs("1234.1.1.1", 4);
  }

  /** Letters are refused. */
  lemma LettersRejected()
    ensures !IsValidIPv4("abc.def.ghi.jkl")
  {
    LeadingDigitsIs("abc.def.ghi.jkl", 0);
  }

  /** `$` without the multiline flag matches only at the very end, so a
      trailing newline is refused. */
  lemma TrailingNewlineRejected()
    ensures !IsValidIPv4("1.2.3.4\n")
  {
    LeadingDigitsIs("1.2.3.4\n", 1);
    assert "1.2.3.4\n"[2..] == "2.3.4\n";
    LeadingDigitsIs("2.3.4\n", 1);
    assert "2.3.4\n"[2..] == "3.4\n";
    LeadingDigitsIs("3.4\n", 1);
    assert "3.4\n"[2..] == "4\n";
    LeadingDigitsIs("4\n", 1);
  }
}
