/** Dash-joined names and substring tests, as the deployment template uses them. */
module Names {

  predicate DashFree(s: string) {
    '-' !in s
  }

  /** separator.join(parts) with separator '-'. */
  function Join(parts: seq<string>): string
    requires parts != []
  {
    if |parts| == 1 then parts[0] else parts[0] + "-" + Join(parts[1..])
  }

  ghost predicate AllDashFree(parts: seq<string>) {
    forall i :: 0 <= i < |parts| ==> DashFree(parts[i])
  }

  function FirstDash(s: string): nat {
    if s == "" || s[0] == '-' then 0 else 1 + FirstDash(s[1..])
  }

  lemma {:induction false} FirstDashAfter(part: string, rest: string)
    requires DashFree(part) && (rest == "" || rest[0] == '-')
    ensures FirstDash(part + rest) == |part|
  {
    if part == "" {
      assert part + rest == rest;
    } else {
      assert (part + rest)[1..] == part[1..] + rest;
      FirstDashAfter(part[1..], rest);
    }
  }

  /** A list of dash-free parts can be read back from its join. */
  lemma {:induction false} JoinIsInjective(a: seq<string>, b: seq<string>)
    requires a != [] && b != [] && AllDashFree(a) && AllDashFree(b)
    requires Join(a) == Join(b)
    ensures a == b
  {
    FirstPart(a);
    FirstPart(b);
    assert a[0] == b[0];
    if |a| > 1 && |b| > 1 {
      JoinIsInjective(a[1..], b[1..]);
      assert a == [a[0]] + a[1..] && b == [b[0]] + b[1..];
    }
  }

  lemma FirstPart(a: seq<string>)
    requires a != [] && AllDashFree(a)
    ensures var s := Join(a); var n := FirstDash(s);
            && n <= |s| && s[..n] == a[0]
            && (|a| == 1 <==> |s| == n)
            && (|a| > 1 ==> s[n + 1..] == Join(a[1..]))
  {
    var rest := if |a| == 1 then "" else "-" + Join(a[1..]);
    FirstDashAfter(a[0], rest);
    assert Join(a) == a[0] + rest;
  }

  predicate OccursAt(s: string, needle: string, i: nat) {
    i + |needle| <= |s| && s[i..i + |needle|] == needle
  }

  /** Python's `needle in s`. */
  predicate Contains(s: string, needle: string) {
    exists i :: 0 <= i <= |s| && OccursAt(s, needle, i)
  }

  /** A dash-free needle cannot straddle a dash. */
  lemma NeedleStaysInOnePart(a: string, b: string, needle: string)
    requires needle != "" && DashFree(needle)
    ensures Contains(a + "-" + b, needle) <==> Contains(a, needle) || Contains(b, needle)
  {
    if Contains(a, needle) { ContainedLeft(a, "-" + b, needle); }
    if Contains(b, needle) { ContainedRight(a + "-", b, needle); }
    assert a + ("-" + b) == a + "-" + b;
    if Contains(a + "-" + b, needle) { OnOneSide(a, b, needle); }
  }

  lemma ContainedLeft(a: string, b: string, needle: string)
    requires Contains(a, needle)
    ensures Contains(a + b, needle)
  {
    var i :| 0 <= i <= |a| && OccursAt(a, needle, i);
    assert (a + b)[i..i + |needle|] == a[i..i + |needle|];
    assert OccursAt(a + b, needle, i);
  }

  lemma ContainedRight(a: string, b: string, needle: string)
    requires Contains(b, needle)
    ensures Contains(a + b, needle)
  {
    var i :| 0 <= i <= |b| && OccursAt(b, needle, i);
    var j := |a| + i;
    assert (a + b)[j..j + |needle|] == b[i..i + |needle|];
    assert OccursAt(a + b, needle, j);
  }

  lemma OnOneSide(a: string, b: string, needle: string)
    requires needle != "" && DashFree(needle) && Contains(a + "-" + b, needle)
    ensures Contains(a, needle) || Contains(b, needle)
  {
    var s, k := a + "-" + b, |needle|;
    var i :| 0 <= i <= |s| && OccursAt(s, needle, i);
    if i + k <= |a| {
      assert s[i..i + k] == a[i..i + k];
      assert OccursAt(a, needle, i);
    } else if i > |a| {
      var j := i - |a| - 1;
      assert s[i..i + k] == b[j..j + k];
      assert OccursAt(b, needle, j);
    } else {
      DashInside(s, needle, i, |a|);
    }
  }

  lemma DashInside(s: string, needle: string, i: nat, dash: nat)
    requires i <= dash < i + |needle| <= |s| && OccursAt(s, needle, i) && s[dash] == '-'
    ensures '-' in needle
  {
    assert needle[dash - i] == s[dash];
  }

  ghost predicate SomePartContains(parts: seq<string>, needle: string) {
    exists i :: 0 <= i < |parts| && Contains(parts[i], needle)
  }

  /** A dash-free needle occurs in a join only inside one of the parts. */
  lemma {:induction false} NeedleInJoin(parts: seq<string>, needle: string)
    requires parts != [] && needle != "" && DashFree(needle)
    ensures Contains(Join(parts), needle) <==> SomePartContains(parts, needle)
  {
    if |parts| > 1 {
      var rest := parts[1..];
      NeedleStaysInOnePart(parts[0], Join(rest), needle);
      NeedleInJoin(rest, needle);
      if SomePartContains(parts, needle) && !Contains(parts[0], needle) {
        var i :| 0 <= i < |parts| && Contains(parts[i], needle);
        assert rest[i - 1] == parts[i];
      }
    }
  }

  lemma NeedleLettersOccur(s: string, needle: string, c: char)
    requires Contains(s, needle) && c in needle
    ensures c in s
  {
    var i :| 0 <= i <= |s| && OccursAt(s, needle, i);
    var j :| 0 <= j < |needle| && needle[j] == c;
    assert s[i + j] == s[i..i + |needle|][j];
  }
}
