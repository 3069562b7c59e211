/** _generateStrongPassword, randomCharFrom and shuffle of utils/util.go. */
module Password {
  import opened Common

  const LOWERCASE := "abcdefghijklmnopqrstuvwxyz"
  const UPPERCASE := "ABCDEFGHIJKLMNOPQRSTUVWXYZ"
  const DIGITS := "0123456789"

  function Swap(s: string, i: nat, j: nat): (t: string)
    requires i < |s| && j < |s|
  {
    s[i := s[j]][j := s[i]]
  }

  /** A choice for every position i: some index not above i. */
  ghost predicate ValidPicks(p: seq<nat>, n: nat) {
    |p| >= n && forall i :: 0 <= i < n ==> p[i] <= i
  }

  /** The first n characters shuffled, from the last of them down. */
  ghost function Shuffled(s: string, p: seq<nat>, n: nat): (t: string)
    requires n <= |s| && ValidPicks(p, n)
    ensures |t| == |s|
    decreases n
  {
    if n <= 1 then s else Shuffled(Swap(s, n - 1, p[n - 1]), p, n - 1)
  }

  lemma SwapPermutes(s: string, i: nat, j: nat)
    requires i < |s| && j < |s|
    ensures multiset(Swap(s, i, j)) == multiset(s)
  {
  }

  lemma {:induction false} ShuffleKeepsTail(s: string, p: seq<nat>, n: nat, k: nat)
    requires n <= k < |s| && ValidPicks(p, n)
    ensures Shuffled(s, p, n)[k] == s[k]
    decreases n
  {
    if n > 1 {
      ShuffleKeepsTail(Swap(s, n - 1, p[n - 1]), p, n - 1, k);
    }
  }

  /** Whatever the choices, the result is a permutation. */
  lemma {:induction false} ShuffleIsPermutation(s: string, p: seq<nat>, n: nat)
    requires n <= |s| && ValidPicks(p, n)
    ensures multiset(Shuffled(s, p, n)) == multiset(s)
    decreases n
  {
    if n > 1 {
      SwapPermutes(s, n - 1, p[n - 1]);
      ShuffleIsPermutation(Swap(s, n - 1, p[n - 1]), p, n - 1);
    }
  }

  ghost predicate Distinct(s: string) {
    forall i, j :: 0 <= i < |s| && 0 <= j < |s| && s[i] == s[j] ==> i == j
  }

  /** The last of the shuffled positions is settled by its own choice alone. */
  lemma ShuffleSettlesLast(s: string, p: seq<nat>, n: nat)
    requires 1 <= n <= |s| && ValidPicks(p, n)
    ensures Shuffled(s, p, n)[n - 1] == s[p[n - 1]]
  {
    if n > 1 {
      ShuffleKeepsTail(Swap(s, n - 1, p[n - 1]), p, n - 1, n - 1);
    }
  }

  /** On distinct characters, different choices give different results. */
  lemma {:induction false} ShuffleIsInjective(s: string, p: seq<nat>, q: seq<nat>, n: nat)
    requires n <= |s| && ValidPicks(p, n) && ValidPicks(q, n) && Distinct(s)
    requires Shuffled(s, p, n) == Shuffled(s, q, n)
    ensures forall i :: 0 <= i < n ==> p[i] == q[i]
    decreases n
  {
    if n > 0 {
      ShuffleSettlesLast(s, p, n);
      ShuffleSettlesLast(s, q, n);
      assert p[n - 1] == q[n - 1];
      if n > 1 {
        SwapKeepsDistinct(s, n - 1, p[n - 1]);
        ShuffleIsInjective(Swap(s, n - 1, p[n - 1]), p, q, n - 1);
      }
    }
  }

  lemma SwapKeepsDistinct(s: string, i: nat, j: nat)
    requires i < |s| && j < |s| && Distinct(s)
    ensures Distinct(Swap(s, i, j))
  {
  }

  /** Every permutation of the first n characters is the result of some choices. */
  lemma {:induction false} ShuffleIsSurjective(s: string, t: string, n: nat) returns (p: seq<nat>)
    requires n <= |s| == |t| && s[n..] == t[n..] && multiset(s[..n]) == multiset(t[..n])
    ensures |p| == n && ValidPicks(p, n) && Shuffled(s, p, n) == t
    decreases n
  {
    if n == 0 {
      p := [];
      assert s == s[0..] && t == t[0..];
    } else if n == 1 {
      p := [0];
      OneLetter(s, t);
    } else {
      assert t[n - 1] in multiset(t[..n]) by { assert t[..n][n - 1] == t[n - 1]; }
      var j :| 0 <= j < n && s[..n][j] == t[n - 1];
      var s' := Swap(s, n - 1, j);
      SwapSettlesLast(s, t, n, j);
      var q := ShuffleIsSurjective(s', t, n - 1);
      p := q + [j];
      SamePicksSameShuffle(s', p, q, n - 1);
    }
  }

  lemma SwapActsOnPrefix(s: string, n: nat, i: nat, j: nat)
    requires n <= |s| && i < n && j < n
    ensures Swap(s, i, j)[..n] == Swap(s[..n], i, j)
    ensures Swap(s, i, j)[n..] == s[n..]
  {
  }

  lemma LastOfMultiset(a: string, b: string)
    requires |a| == |b| > 0 && multiset(a) == multiset(b) && a[|a| - 1] == b[|b| - 1]
    ensures multiset(a[..|a| - 1]) == multiset(b[..|b| - 1])
  {
    var n := |a| - 1;
    assert a == a[..n] + [a[n]] && b == b[..n] + [a[n]];
    assert multiset(a[..n]) == multiset(a) - multiset{a[n]};
    assert multiset(b[..n]) == multiset(b) - multiset{a[n]};
  }

  lemma TailsAgreeFrom(s: string, t: string, n: nat)
    requires 0 < n <= |s| == |t| && s[n..] == t[n..] && s[n - 1] == t[n - 1]
    ensures s[n - 1..] == t[n - 1..]
  {
    assert s[n - 1..] == [s[n - 1]] + s[n..];
    assert t[n - 1..] == [t[n - 1]] + t[n..];
  }

  /** Swapping the wanted character into the last place leaves a smaller instance. */
  lemma SwapSettlesLast(s: string, t: string, n: nat, j: nat)
    requires 1 < n <= |s| == |t| && s[n..] == t[n..] && multiset(s[..n]) == multiset(t[..n])
    requires j < n && s[j] == t[n - 1]
    ensures var s' := Swap(s, n - 1, j);
            s'[n - 1..] == t[n - 1..] && multiset(s'[..n - 1]) == multiset(t[..n - 1])
  {
    var s' := Swap(s, n - 1, j);
    SwapActsOnPrefix(s, n, n - 1, j);
    SwapPermutes(s[..n], n - 1, j);
    TailsAgreeFrom(s', t, n);
    LastOfMultiset(s'[..n], t[..n]);
    assert s'[..n][..n - 1] == s'[..n - 1] && t[..n][..n - 1] == t[..n - 1];
  }

  lemma OneLetter(s: string, t: string)
    requires |s| == |t| >= 1 && s[1..] == t[1..] && multiset(s[..1]) == multiset(t[..1])
    ensures s == t
  {
    assert s[..1] == [s[0]] && t[..1] == [t[0]];
    assert s[0] in multiset(t[..1]);
    assert s == s[..1] + s[1..] && t == t[..1] + t[1..];
  }

  lemma {:induction false} SamePicksSameShuffle(s: string, p: seq<nat>, q: seq<nat>, n: nat)
    requires n <= |s| && ValidPicks(p, n) && ValidPicks(q, n) && p[..n] == q[..n]
    ensures Shuffled(s, p, n) == Shuffled(s, q, n)
    decreases n
  {
    if n > 1 {
      assert p[n - 1] == p[..n][n - 1] == q[n - 1];
      assert p[..n - 1] == p[..n][..n - 1] == q[..n - 1];
      SamePicksSameShuffle(Swap(s, n - 1, p[n - 1]), p, q, n - 1);
    }
  }

  // ---------------------------------------------------------------------
  // The code
  // ---------------------------------------------------------------------

  ghost function Picks(draws: nat -> nat, n: nat): (p: seq<nat>)
    ensures |p| == n && ValidPicks(p, n)
    ensures forall i :: 0 <= i < n ==> p[i] == draws(i) % (i + 1)
  {
    seq(n, i requires 0 <= i => draws(i) % (i + 1))
  }

  /** Go's in-place shuffle; draws gives the random number for each position. */
  method Shuffle(data: array<char>, draws: nat -> nat) returns (ghost p: seq<nat>)
    modifies data
    ensures |p| == data.Length && ValidPicks(p, data.Length)
    ensures forall i :: 1 <= i < data.Length ==> p[i] == draws(i) % (i + 1)
    ensures data[..] == Shuffled(old(data[..]), p, data.Length)
  {
    p := Picks(draws, data.Length);
    if data.Length == 0 {
      return;
    }
    var i := data.Length - 1;
    while i > 0
      invariant 0 <= i < data.Length
      invariant Shuffled(data[..], p, i + 1) == Shuffled(old(data[..]), p, data.Length)
    {
      var j := draws(i) % (i + 1);
      ghost var before := data[..];
      data[i], data[j] := data[j], data[i];
      assert data[..] == Swap(before, i, p[i]);
      i := i - 1;
    }
  }

  /** One character, or nothing when the random source fails. */
  method RandomCharFrom(chars: string, draw: Option<nat>) returns (r: Result<char, ()>)
    requires chars != ""
    ensures r.Ok? <==> draw.Some?
    ensures r.Ok? ==> r.value in chars && r.value == chars[draw.value % |chars|]
  {
    if draw.None? {
      return Err(());
    }
    return Ok(chars[draw.value % |chars|]);
  }

  ghost predicate HasOneOf(s: string, chars: string) {
    exists k :: 0 <= k < |s| && s[k] in chars
  }

  /** Only permitted characters, and one at least of every category. */
  ghost predicate Meets(s: string, categories: seq<string>, permitted: string) {
    && (forall k :: 0 <= k < |s| ==> s[k] in permitted)
    && forall c :: 0 <= c < |categories| ==> HasOneOf(s, categories[c])
  }

  ghost predicate Strong(s: string) {
    Meets(s, [LOWERCASE, UPPERCASE, DIGITS], LOWERCASE + UPPERCASE + DIGITS)
  }

  lemma HasOneOfIsAboutLetters(s: string, t: string, chars: string)
    requires multiset(s) == multiset(t) && HasOneOf(s, chars)
    ensures HasOneOf(t, chars)
  {
    var k :| 0 <= k < |s| && s[k] in chars;
    assert s[k] in multiset(t);
    var m :| 0 <= m < |t| && t[m] == s[k];
  }

  /** A policy depends only on which characters occur, so it survives a permutation. */
  lemma PolicySurvives(s: string, t: string, categories: seq<string>, permitted: string)
    requires multiset(s) == multiset(t) && Meets(s, categories, permitted)
    ensures Meets(t, categories, permitted)
  {
    forall c | 0 <= c < |categories| ensures HasOneOf(t, categories[c]) {
      HasOneOfIsAboutLetters(s, t, categories[c]);
    }
    forall k | 0 <= k < |t| ensures t[k] in permitted {
      assert t[k] in multiset(s);
      var m :| 0 <= m < |s| && s[m] == t[k];
    }
  }

  /** The categories are not empty and hold permitted characters only. */
  ghost predicate Suits(categories: seq<string>, permitted: string) {
    forall c :: 0 <= c < |categories| ==> Within(categories[c], permitted)
  }

  ghost predicate Within(chars: string, permitted: string) {
    chars != "" && forall k :: 0 <= k < |chars| ==> chars[k] in permitted
  }

  lemma WithinSum(a: string, chars: string, b: string)
    requires chars != ""
    ensures Within(chars, a + chars + b)
  {
    forall k | 0 <= k < |chars| ensures chars[k] in a + chars + b {
      assert (a + chars + b)[|a| + k] == chars[k];
    }
  }

  /** The characters before the shuffle: each is the one its own random number picks. */
  ghost predicate PickedBy(s: string, categories: seq<string>, permitted: string, chosen: nat -> Option<nat>) {
    forall k: nat :: k < |s| ==>
      var chars := if k < |categories| then categories[k] else permitted;
      chars != "" && chosen(k).Some? && s[k] == chars[chosen(k).value % |chars|]
  }

  lemma {:induction false} RunOfCharacters(chars: string, first: char, c: char)
    requires forall i :: 0 <= i < |chars| ==> chars[i] as int == first as int + i
    ensures c in chars <==> first <= c && c as int < first as int + |chars|
  {
    if first <= c && c as int < first as int + |chars| {
      assert chars[c as int - first as int] == c;
    }
  }

  /** The categories are the ASCII letters and digits. */
  lemma CategoriesAreAscii(c: char)
    ensures c in LOWERCASE <==> 97 <= c as int <= 122
    ensures c in UPPERCASE <==> 65 <= c as int <= 90
    ensures c in DIGITS <==> 48 <= c as int <= 57
  {
    RunOfCharacters(LOWERCASE, 'a', c);
    RunOfCharacters(UPPERCASE, 'A', c);
    RunOfCharacters(DIGITS, '0', c);
  }

  /** In plain figures: a strong password has small letters, capitals and digits, all three and nothing else. */
  lemma StrongIsAscii(s: string)
    requires Strong(s)
    ensures forall k :: 0 <= k < |s| ==>
              97 <= s[k] as int <= 122 || 65 <= s[k] as int <= 90 || 48 <= s[k] as int <= 57
    ensures exists k :: 0 <= k < |s| && 97 <= s[k] as int <= 122
    ensures exists k :: 0 <= k < |s| && 65 <= s[k] as int <= 90
    ensures exists k :: 0 <= k < |s| && 48 <= s[k] as int <= 57
  {
    var l, u, d := LOWERCASE, UPPERCASE, DIGITS;
    forall c: char ensures (c in l <==> 97 <= c as int <= 122) && (c in u <==> 65 <= c as int <= 90)
                           && (c in d <==> 48 <= c as int <= 57)
    {
      CategoriesAreAscii(c);
    }
    MeetsEach(s, l, u, d);
  }

  lemma MeetsEach(s: string, l: string, u: string, d: string)
    requires Meets(s, [l, u, d], l + u + d)
    ensures forall k :: 0 <= k < |s| ==> s[k] in l || s[k] in u || s[k] in d
    ensures HasOneOf(s, l) && HasOneOf(s, u) && HasOneOf(s, d)
  {
    var categories := [l, u, d];
    assert HasOneOf(s, categories[0]) && HasOneOf(s, categories[1]) && HasOneOf(s, categories[2]);
  }

  ghost predicate AllDrawn(chosen: nat -> Option<nat>, n: int) {
    forall i: nat :: i < n ==> chosen(i).Some?
  }

  /** The two filling loops: one character of each category, then any permitted ones. */
  method Fill(password: array<char>, categories: seq<string>, permitted: string, chosen: nat -> Option<nat>)
    returns (ok: bool)
    requires |categories| <= password.Length && Suits(categories, permitted) && permitted != ""
    modifies password
    ensures ok <==> AllDrawn(chosen, password.Length)
    ensures ok ==> Meets(password[..], categories, permitted)
    ensures ok ==> PickedBy(password[..], categories, permitted, chosen)
  {
    for i := 0 to |categories|
      invariant AllDrawn(chosen, i)
      invariant forall k :: 0 <= k < i ==> password[k] in categories[k]
      invariant PickedBy(password[..i], categories, permitted, chosen)
    {
      ghost var before := password[..i];
      assert Within(categories[i], permitted);
      var char' := RandomCharFrom(categories[i], chosen(i));
      if char'.Err? {
        return false;
      }
      password[i] := char'.value;
      assert password[..i + 1] == before + [char'.value];
    }
    for i := |categories| to password.Length
      invariant AllDrawn(chosen, i)
      invariant forall k :: 0 <= k < |categories| ==> password[k] in categories[k]
      invariant forall k :: |categories| <= k < i ==> password[k] in permitted
      invariant PickedBy(password[..i], categories, permitted, chosen)
    {
      ghost var before := password[..i];
      var char' := RandomCharFrom(permitted, chosen(i));
      if char'.Err? {
        return false;
      }
      password[i] := char'.value;
      assert password[..i + 1] == before + [char'.value];
    }
    assert password[..password.Length] == password[..];
    FilledMeets(password[..], categories, permitted);
    return true;
  }

  lemma FilledMeets(s: string, categories: seq<string>, permitted: string)
    requires |categories| <= |s| && Suits(categories, permitted)
    requires forall k :: 0 <= k < |categories| ==> s[k] in categories[k]
    requires forall k :: |categories| <= k < |s| ==> s[k] in permitted
    ensures Meets(s, categories, permitted)
  {
    forall k | 0 <= k < |s| ensures s[k] in permitted {
      if k < |categories| {
        assert Within(categories[k], permitted);
      }
    }
  }

  lemma AlphabetsSuit()
    ensures Suits([LOWERCASE, UPPERCASE, DIGITS], LOWERCASE + UPPERCASE + DIGITS)
  {
    var l, u, d := LOWERCASE, UPPERCASE, DIGITS;
    SumSuits(l, u, d);
  }

  lemma SumSuits(l: string, u: string, d: string)
    requires l != "" && u != "" && d != ""
    ensures Suits([l, u, d], l + u + d)
  {
    WithinSum("", l, u + d);
    WithinSum(l, u, d);
    WithinSum(l + u, d, "");
    assert l + u + d == "" + l + (u + d) == l + u + d + "";
  }

  /** The result is the picked characters in the order of the drawn shuffle. */
  ghost predicate ShuffledDraws(s: string, chosen: nat -> Option<nat>, shuffled: nat -> nat) {
    exists before, p ::
      && |before| == |p| == |s|
      && PickedBy(before, [LOWERCASE, UPPERCASE, DIGITS], LOWERCASE + UPPERCASE + DIGITS, chosen)
      && ValidPicks(p, |s|) && (forall i :: 1 <= i < |s| ==> p[i] == shuffled(i) % (i + 1))
      && s == Shuffled(before, p, |s|)
  }

  /** chosen(i) is the draw for character i, shuffled(i) the draw for position i of the shuffle. */
  method GenerateStrongPassword(length: int, chosen: nat -> Option<nat>, shuffled: nat -> nat)
    returns (r: Result<string, ()>)
    ensures r.Ok? <==> length >= 8 && AllDrawn(chosen, length)
    ensures r.Ok? ==> |r.value| == length && Strong(r.value)
    ensures r.Ok? ==> ShuffledDraws(r.value, chosen, shuffled)
  {
    if length < 8 {
      return Err(());
    }
    var allChars := LOWERCASE + UPPERCASE + DIGITS;
    var charCategories := [LOWERCASE, UPPERCASE, DIGITS];
    AlphabetsSuit();
    var password := new char[length];
    var ok := Fill(password, charCategories, allChars, chosen);
    if !ok {
      return Err(());
    }
    ghost var before := password[..];
    ghost var p := Shuffle(password, shuffled);
    ShuffleIsPermutation(before, p, length);
    PolicySurvives(before, password[..], charCategories, allChars);
    assert PickedBy(before, charCategories, allChars, chosen);
    return Ok(password[..]);
  }
}
