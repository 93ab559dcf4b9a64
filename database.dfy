/** The desktop backend's database layer, as far as query text goes: in
    PostgreSQL mode a query written for SQLite is rewritten by four fixed
    replacements; in SQLite mode it is left alone. Connections and
    execution are not modelled. */
module Database {
  import opened Common

  /** Python `str.replace(pat, rep)`: one left-to-right scan replacing
      non-overlapping occurrences; replaced text is not scanned again. */
  function ReplaceAll(s: string, pat: string, rep: string): string
    requires pat != []
    decreases |s|
  {
    if |s| < |pat| then s
    else if s[..|pat|] == pat then rep + ReplaceAll(s[|pat|..], pat, rep)
    else [s[0]] + ReplaceAll(s[1..], pat, rep)
  }

  /** Text without an occurrence of the pattern is unchanged. */
  lemma {:induction false} ReplaceAbsent(s: string, pat: string, rep: string)
    requires pat != [] && !Contains(s, pat)
    ensures ReplaceAll(s, pat, rep) == s
    decreases |s|
  {
    if |s| >= |pat| {
      assert !OccursAt(s, pat, 0);
      assert !Contains(s[1..], pat) by {
        forall i | 0 <= i <= |s[1..]|
          ensures !OccursAt(s[1..], pat, i)
        {
          if i + |pat| <= |s[1..]| {
            assert s[1..][i..i + |pat|] == s[i + 1..i + 1 + |pat|];
          }
          assert !OccursAt(s, pat, i + 1);
        }
      }
      ReplaceAbsent(s[1..], pat, rep);
    }
  }

  /** Text without the pattern's first character is unchanged. */
  lemma ReplaceAbsentHead(s: string, pat: string, rep: string)
    requires pat != [] && pat[0] !in s
    ensures ReplaceAll(s, pat, rep) == s
  {
    forall i | 0 <= i <= |s|
      ensures !OccursAt(s, pat, i)
    {
      if i + |pat| <= |s| {
        assert s[i..i + |pat|][0] == s[i];
      }
    }
    ReplaceAbsent(s, pat, rep);
  }

  /** A character in neither the text nor the replacement is not in the
      result. */
  lemma {:induction false} ReplaceKeepsAbsent(s: string, pat: string, rep: string, c: char)
    requires pat != [] && c !in s && c !in rep
    ensures c !in ReplaceAll(s, pat, rep)
    decreases |s|
  {
    if |s| >= |pat| {
      if s[..|pat|] == pat {
        ReplaceKeepsAbsent(s[|pat|..], pat, rep, c);
      } else {
        ReplaceKeepsAbsent(s[1..], pat, rep, c);
      }
    }
  }

  /** Replacing a one-character pattern by text without it leaves no
      occurrence. */
  lemma {:induction false} ReplaceRemovesChar(s: string, c: char, rep: string)
    requires c !in rep
    ensures c !in ReplaceAll(s, [c], rep)
    decreases |s|
  {
    if |s| >= 1 {
      ReplaceRemovesChar(s[1..], c, rep);
    }
  }

  const Placeholder: string := "?"
  const Auto: string := "AUTO"
  const Increment: string := "INCREMENT"
  const AutoIncrement: string := Auto + Increment
  const DatetimeNow: string := "datetime('now',"
  const DaysClose: string := "days')"

  /** `format_query`: in PostgreSQL mode the placeholders become `%s`,
      AUTOINCREMENT is dropped and the SQLite date arithmetic is rewritten
      to an interval, in that order; in SQLite mode the query is returned
      as given. */
  function FormatQuery(usePostgresql: bool, query: string): (r: string)
    ensures !usePostgresql ==> r == query
    ensures usePostgresql ==> '?' !in r
  {
    if usePostgresql then
      var q1 := ReplaceAll(query, Placeholder, "%s");
      var q2 := ReplaceAll(q1, AutoIncrement, "");
      var q3 := ReplaceAll(q2, DatetimeNow, "NOW() - INTERVAL");
      var q4 := ReplaceAll(q3, DaysClose, "day");
      ReplaceRemovesChar(query, '?', "%s");
      ReplaceKeepsAbsent(q1, AutoIncrement, "", '?');
      ReplaceKeepsAbsent(q2, DatetimeNow, "NOW() - INTERVAL", '?');
      ReplaceKeepsAbsent(q3, DaysClose, "day", '?');
      q4
    else query
  }

  /** A query with none of the four patterns is unchanged in either mode. */
  lemma FormatUnchanged(usePostgresql: bool, query: string)
    requires !Contains(query, Placeholder) && !Contains(query, AutoIncrement)
    requires !Contains(query, DatetimeNow) && !Contains(query, DaysClose)
    ensures FormatQuery(usePostgresql, query) == query
  {
    ReplaceAbsent(query, Placeholder, "%s");
    ReplaceAbsent(query, AutoIncrement, "");
    ReplaceAbsent(query, DatetimeNow, "NOW() - INTERVAL");
    ReplaceAbsent(query, DaysClose, "day");
  }

  /** Where the pattern does not start, the scan copies one character. */
  lemma CopyOne(s: string, pat: string, rep: string)
    requires pat != [] && |pat| <= |s| && !OccursAt(s, pat, 0)
    ensures ReplaceAll(s, pat, rep) == [s[0]] + ReplaceAll(s[1..], pat, rep)
  {
    assert s[..|pat|] == s[0..0 + |pat|];
  }

  /** A stretch of the scan where the pattern does not start is copied. */
  lemma {:induction false} SkipPrefix(s: string, pat: string, rep: string, k: nat)
    requires pat != [] && k + |pat| <= |s|
    requires forall j :: 0 <= j < k ==> !OccursAt(s, pat, j)
    ensures ReplaceAll(s, pat, rep) == s[..k] + ReplaceAll(s[k..], pat, rep)
    decreases k
  {
    if k > 0 {
      var t := s[1..];
      CopyOne(s, pat, rep);
      assert forall j :: 0 <= j < k - 1 ==> !OccursAt(t, pat, j) by {
        forall j | 0 <= j < k - 1
          ensures !OccursAt(t, pat, j)
        {
          ShiftOccurs(s, pat, j);
        }
      }
      SkipPrefix(t, pat, rep, k - 1);
      ShiftSlices(s, k);
      var tail := ReplaceAll(s[k..], pat, rep);
      assert ReplaceAll(s, pat, rep) == [s[0]] + (t[..k - 1] + tail);
      assert [s[0]] + (t[..k - 1] + tail) == ([s[0]] + t[..k - 1]) + tail;
    }
  }

  /** An occurrence in the tail is one in the text, one place on. */
  lemma ShiftOccurs(s: string, pat: string, j: nat)
    requires s != []
    ensures OccursAt(s[1..], pat, j) <==> OccursAt(s, pat, j + 1)
  {
    if j + |pat| <= |s| - 1 {
      assert s[1..][j..j + |pat|] == s[j + 1..j + 1 + |pat|];
    }
  }

  /** Slicing after dropping the head. */
  lemma ShiftSlices(s: string, k: nat)
    requires 0 < k <= |s|
    ensures s[1..][k - 1..] == s[k..] && s[..k] == [s[0]] + s[1..][..k - 1]
  {
  }

  /** Removing the pattern once from "AUTO" + pattern + "INCREMENT" leaves
      the pattern. */
  lemma RemoveInner()
    ensures ReplaceAll(Auto + AutoIncrement + Increment, AutoIncrement, "") == AutoIncrement
  {
    var pat := AutoIncrement;
    var tail := Increment;
    var q := Auto + pat + tail;
    var n := |pat|;
    forall j | 0 <= j < 4
      ensures !OccursAt(q, pat, j)
    {
      if j == 0 {
        assert q[j..j + n][4] == pat[0] == 'A' && pat[4] == tail[0] == 'I';
      } else {
        assert q[j..j + n][0] == Auto[j] != 'A';
      }
    }
    SkipPrefix(q, pat, "", 4);
    assert q[4..] == pat + tail;
    assert (pat + tail)[..n] == pat && (pat + tail)[n..] == tail;
    assert ReplaceAll(q[4..], pat, "") == tail;
    assert q[..4] == Auto;
  }

  /** The replacements are single passes: removing AUTOINCREMENT from the
      middle of "AUTOAUTOINCREMENTINCREMENT" leaves AUTOINCREMENT behind. */
  lemma SinglePass()
    ensures FormatQuery(true, Auto + AutoIncrement + Increment) == AutoIncrement
  {
    var q := Auto + AutoIncrement + Increment;
    assert '?' !in Auto && '?' !in Increment;
    ReplaceAbsentHead(q, Placeholder, "%s");
    RemoveInner();
    assert 'd' !in Auto;
    assert 'd' !in Increment;
    ReplaceAbsentHead(AutoIncrement, DatetimeNow, "NOW() - INTERVAL");
    ReplaceAbsentHead(AutoIncrement, DaysClose, "day");
  }
}
