/**
 * The vote stored under the election key: the text "nominee,state,fitness".
 * leader.c reads it with the POSIX extended pattern ([^,]+),([^,]+),([^,]+)
 * (unanchored, leftmost-longest) and strtol, and writes it with
 * asprintf("%s,%ld,%ld", ...).
 */
module VoteCodec {
  import opened Wrappers
  import opened CString

  /** leader_state_t */
  const NO_LEADER: int := 0
  const TENTATIVE: int := 1
  const CONFIRMED: int := 2

  /** No comma in s[i..j]. */
  ghost predicate NoComma(s: string, i: int, j: int)
    requires 0 <= i <= j <= |s|
  {
    forall k :: i <= k < j ==> s[k] != ','
  }

  /**
   * s[a..d] is an occurrence of ([^,]+),([^,]+),([^,]+) whose three
   * sub-matches are s[a..b], s[b+1..c] and s[c+1..d].
   */
  ghost predicate PatternAt(s: string, a: int, b: int, c: int, d: int)
  {
    && 0 <= a < b < |s| && s[b] == ','
    && b + 1 < c < |s| && s[c] == ','
    && c + 1 < d <= |s|
    && NoComma(s, a, b) && NoComma(s, b + 1, c) && NoComma(s, c + 1, d)
  }

  /** The regmatch_t offsets of a match: field k is text[so_k..eo_k]. */
  datatype Match = Match(so1: nat, eo1: nat, eo2: nat, eo3: nat)
  {
    function so2(): nat { eo1 + 1 }
    function so3(): nat { eo2 + 1 }
  }

  /** Offset of the first comma at or after `i`, or |s| when there is none. */
  function NextComma(s: string, i: nat): (j: nat)
    requires i <= |s|
    ensures i <= j <= |s| && (j == |s| || s[j] == ',') && NoComma(s, i, j)
    decreases |s| - i
  {
    if i == |s| || s[i] == ',' then i else NextComma(s, i + 1)
  }

  /** The first comma (or the end) at or after `i` is at `j`. */
  lemma {:induction false} NextCommaAt(s: string, i: nat, j: nat)
    requires i <= j <= |s| && NoComma(s, i, j) && (j == |s| || s[j] == ',')
    ensures NextComma(s, i) == j
    decreases j - i
  {
    if i < j {
      NextCommaAt(s, i + 1, j);
    }
  }

  /**
   * The longest match that starts at `p`: each field runs up to the next
   * comma, and all three must be non-empty.
   */
  function MatchFrom(s: string, p: nat): Option<Match>
    requires p <= |s|
  {
    var e1 := NextComma(s, p);
    if p < e1 < |s| then
      var e2 := NextComma(s, e1 + 1);
      if e1 + 1 < e2 < |s| then
        var e3 := NextComma(s, e2 + 1);
        if e2 + 1 < e3 then Some(Match(p, e1, e2, e3)) else None
      else None
    else None
  }

  /**
   * regexec over s[p..]: a match can only start where a comma-separated
   * segment starts (otherwise it extends one character further left), so
   * the segments are tried in order.
   */
  function FindVote(s: string, p: nat): (r: Option<Match>)
    requires p <= |s|
    ensures r.Some? ==> p <= r.value.so1 && PatternAt(s, r.value.so1, r.value.eo1, r.value.eo2, r.value.eo3)
    ensures r.Some? ==> r.value.eo3 == |s| || s[r.value.eo3] == ','
    ensures r.Some? && p < r.value.so1 ==> s[r.value.so1 - 1] == ','
    decreases |s| - p
  {
    match MatchFrom(s, p)
    case Some(m) => Some(m)
    case None =>
      var e := NextComma(s, p);
      if e < |s| then FindVote(s, e + 1) else None
  }

  /** No occurrence of the pattern starts before the one FindVote reports, and it finds one whenever there is one. */
  lemma {:induction false} FindVoteLeftmost(s: string, p: nat, a: int, b: int, c: int, d: int)
    requires p <= a && p <= |s| && PatternAt(s, a, b, c, d)
    ensures FindVote(s, p).Some? && FindVote(s, p).value.so1 <= a
    decreases |s| - p
  {
    var e := NextComma(s, p);
    if a < e {
      MatchFromCovers(s, p, a, b, c, d);
    } else {
      assert s[a] != ',';
      if MatchFrom(s, p).None? {
        FindVoteLeftmost(s, e + 1, a, b, c, d);
      }
    }
  }

  /** An occurrence inside the segment that starts at `p` makes a match from `p` with the same commas. */
  lemma MatchFromCovers(s: string, p: nat, a: int, b: int, c: int, d: int)
    requires p <= |s| && p <= a < NextComma(s, p) && PatternAt(s, a, b, c, d)
    ensures MatchFrom(s, p) == Some(Match(p, b, c, NextComma(s, c + 1)))
  {
    NextCommaAt(s, p, b);
    NextCommaAt(s, b + 1, c);
  }

  /** The sub-matches of the reported match are the longest possible from its start. */
  lemma FindVoteLongest(s: string, p: nat, b: int, c: int, d: int)
    requires p <= |s| && FindVote(s, p).Some?
    requires PatternAt(s, FindVote(s, p).value.so1, b, c, d)
    ensures var m := FindVote(s, p).value; b == m.eo1 && c == m.eo2 && d <= m.eo3
  {
    var m := FindVote(s, p).value;
    NextCommaAt(s, m.so1, b);
    NextCommaAt(s, m.so1, m.eo1);
    NextCommaAt(s, b + 1, c);
    NextCommaAt(s, m.so2(), m.eo2);
  }

  /**
   * regexec(&vote_re, text, ...) finds the leftmost-longest occurrence of
   * ([^,]+),([^,]+),([^,]+) anywhere in the text, and fails exactly when
   * there is none.
   */
  lemma VoteMatchIsLeftmostLongest(s: string)
    ensures forall a, b, c, d :: PatternAt(s, a, b, c, d) ==>
              FindVote(s, 0).Some? && FindVote(s, 0).value.so1 <= a
    ensures FindVote(s, 0).Some? ==>
              forall b, c, d :: PatternAt(s, FindVote(s, 0).value.so1, b, c, d) ==>
                b == FindVote(s, 0).value.eo1 && c == FindVote(s, 0).value.eo2 && d <= FindVote(s, 0).value.eo3
  {
    forall a, b, c, d | PatternAt(s, a, b, c, d)
      ensures FindVote(s, 0).Some? && FindVote(s, 0).value.so1 <= a
    {
      FindVoteLeftmost(s, 0, a, b, c, d);
    }
    if FindVote(s, 0).Some? {
      forall b, c, d | PatternAt(s, FindVote(s, 0).value.so1, b, c, d)
        ensures b == FindVote(s, 0).value.eo1 && c == FindVote(s, 0).value.eo2 && d <= FindVote(s, 0).value.eo3
      {
        FindVoteLongest(s, 0, b, c, d);
      }
    }
  }

  /** What one read of the key tells GetCurrentLeader. */
  datatype Reading =
    | Malformed                                            // text present, pattern not found
    | Ballot(nominee: Option<string>, state: int, fitness: int)

  /**
   * Decoding of the value read (None: etcd_get returned NULL). The state
   * and fitness fields go through strtol, so they are never rejected. Only
   * fields 1 and 2 are cut off at their ends; fitness is read by strtol from
   * the start of field 3 to the end of the text, and strtol stops at the
   * comma that may follow the field (FitnessStopsAtField).
   */
  function DecodeVote(text: Option<string>): (r: Reading)
    ensures text.None? ==> r == Ballot(None, NO_LEADER, 0)
    ensures r.Malformed? <==> text.Some? && FindVote(text.value, 0).None?
    ensures r.Ballot? && r.nominee.None? ==> text.None?
    ensures r.Ballot? && r.nominee.Some? ==> r.nominee.value != [] && CommaFree(r.nominee.value)
    ensures r.Ballot? ==> IsLong(r.state) && IsLong(r.fitness)
  {
    match text
    case None => Ballot(None, NO_LEADER, 0)
    case Some(t) =>
      match FindVote(t, 0)
      case None => Malformed
      case Some(m) =>
        Ballot(Some(t[m.so1..m.eo1]), Strtol(t[m.so2()..m.eo2]), Strtol(t[m.so3()..|t|]))
  }

  /**
   * A value in which the pattern matches decodes to its three sub-matches:
   * field 1 and the strtol values of fields 2 and 3.
   */
  lemma DecodeMatch(v: string, m: Match)
    requires FindVote(v, 0) == Some(m)
    ensures DecodeVote(Some(v)) == Ballot(Some(v[m.so1..m.eo1]), Strtol(v[m.so2()..m.eo2]), Strtol(v[m.so3()..m.eo3]))
  {
    FitnessStopsAtField(v, m);
  }

  /** asprintf(&vote, "%s,%ld,%ld", nominee, state, fitness) */
  function EncodeVote(nominee: string, state: int, fitness: int): (s: string)
    ensures IsCString(nominee) ==> IsCString(s)
  {
    var x, y := FormatLong(state), FormatLong(fitness);
    var s := nominee + "," + x + "," + y;
    assert forall k :: |nominee| < k <= |nominee| + |x| ==> s[k] == x[k - |nominee| - 1];
    assert forall k :: |nominee| + |x| + 1 < k < |s| ==> s[k] == y[k - |nominee| - |x| - 2];
    s
  }

  lemma NoCommaIn(s: string, i: nat, j: nat)
    requires i <= j <= |s| && CommaFree(s[i..j])
    ensures NoComma(s, i, j)
  {
    forall k | i <= k < j ensures s[k] != ',' {
      assert s[k] == s[i..j][k - i];
    }
  }

  /** The fitness read is strtol of the third sub-match alone. */
  lemma FitnessStopsAtField(v: string, m: Match)
    requires FindVote(v, 0) == Some(m)
    ensures Strtol(v[m.so3()..|v|]) == Strtol(v[m.so3()..m.eo3])
  {
    StopsAtComma(v, m.so3(), m.eo3);
  }

  lemma StopsAtComma(s: string, i: nat, j: nat)
    requires i <= j <= |s| && (j == |s| || s[j] == ',')
    ensures Strtol(s[i..|s|]) == Strtol(s[i..j])
  {
    StrtolUpTo(s, i, j);
  }

  /** In a value made of three non-empty comma-free fields, the pattern matches the whole value. */
  lemma MatchOfFields(n: string, x: string, y: string)
    requires n != [] && x != [] && y != [] && CommaFree(n) && CommaFree(x) && CommaFree(y)
    ensures var s := n + "," + x + "," + y;
            FindVote(s, 0) == Some(Match(0, |n|, |n| + 1 + |x|, |s|))
  {
    var s := n + "," + x + "," + y;
    var b, c := |n|, |n| + 1 + |x|;
    assert s[0..b] == n;
    assert s[b + 1..c] == x;
    assert s[c + 1..|s|] == y;
    assert s[b] == ',' && s[c] == ',';
    NoCommaIn(s, 0, b);
    NoCommaIn(s, b + 1, c);
    NoCommaIn(s, c + 1, |s|);
    NextCommaAt(s, 0, b);
    NextCommaAt(s, b + 1, c);
    NextCommaAt(s, c + 1, |s|);
    assert MatchFrom(s, 0) == Some(Match(0, b, c, |s|));
  }

  /**
   * A value made of three non-empty comma-free fields decodes to field 1
   * and the strtol values of fields 2 and 3.
   */
  lemma DecodeFields(n: string, x: string, y: string)
    requires n != [] && x != [] && y != [] && CommaFree(n) && CommaFree(x) && CommaFree(y)
    ensures DecodeVote(Some(n + "," + x + "," + y)) == Ballot(Some(n), Strtol(x), Strtol(y))
  {
    var s := n + "," + x + "," + y;
    var m := Match(0, |n|, |n| + 1 + |x|, |s|);
    MatchOfFields(n, x, y);
    DecodeMatch(s, m);
    assert s[0..m.eo1] == n;
    assert s[m.so2()..m.eo2] == x;
    assert s[m.so3()..|s|] == y;
  }

  /**
   * Decoding undoes encoding for a nominee that is a single non-empty
   * field; numbers outside the range of `long` come back saturated.
   */
  lemma DecodeEncode(n: string, state: int, fitness: int)
    requires n != [] && CommaFree(n)
    ensures DecodeVote(Some(EncodeVote(n, state, fitness))) == Ballot(Some(n), Clamp(state), Clamp(fitness))
  {
    DecodeFields(n, FormatLong(state), FormatLong(fitness));
    StrtolOfFormat(state);
    StrtolOfFormat(fitness);
  }

  /** Non-numeric state and fitness fields read as 0; they are not rejected. */
  lemma NonNumericFieldsReadAsZero(n: string, x: string, y: string)
    requires n != [] && x != [] && y != [] && CommaFree(n) && CommaFree(x) && CommaFree(y)
    requires forall k :: 0 <= k < |x| ==> !IsDigit(x[k])
    requires forall k :: 0 <= k < |y| ==> !IsDigit(y[k])
    ensures DecodeVote(Some(n + "," + x + "," + y)) == Ballot(Some(n), 0, 0)
  {
    DecodeFields(n, x, y);
    StrtolWithoutDigits(x);
    StrtolWithoutDigits(y);
  }

  /**
   * strtol reads a zero-padded numeral as its value, and "%ld" never
   * prints one: a field written "01" reads as 1, and no vote this code
   * writes spells it that way.
   */
  lemma PaddedNumeralReadsAsValue()
    ensures DecodeVote(Some("n,01,2")) == Ballot(Some("n"), 1, 2)
    ensures EncodeVote("n", 1, 2) != "n,01,2"
  {
    var v := "n" + "," + "01" + "," + "2";
    assert v == "n,01,2";
    assert DecodeVote(Some(v)) == Ballot(Some("n"), 1, 2) by {
      DecodeFields("n", "01", "2");
      StrtolPadded();
      StrtolDigit();
    }
    assert EncodeVote("n", 1, 2) != "n,01,2" by {
      assert FormatLong(1) == "1";
    }
  }

  /** A single field, without a comma, is malformed. */
  lemma OneFieldMalformed(n: string)
    requires CommaFree(n)
    ensures DecodeVote(Some(n)) == Malformed
  {
  }

  /** Two fields separated by one comma are malformed: the pattern needs two commas. */
  lemma TwoFieldsMalformed(n: string, x: string)
    requires CommaFree(n) && CommaFree(x)
    ensures DecodeVote(Some(n + "," + x)) == Malformed
  {
    var s := n + "," + x;
    forall k | 0 <= k < |s| && k != |n| ensures s[k] != ',' {
      if k < |n| { assert s[k] == n[k]; } else { assert s[k] == x[k - |n| - 1]; }
    }
  }
}
