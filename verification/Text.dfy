/** White space and trimming, as Go's strings package defines them. */
module Text {

  /** unicode.IsSpace */
  predicate IsSpace(c: char) {
    || c in {'\t', '\n', '\U{000B}', '\U{000C}', '\r', ' ', '\U{0085}', '\U{00A0}', '\U{1680}'}
    || '\U{2000}' <= c <= '\U{200A}'
    || c in {'\U{2028}', '\U{2029}', '\U{202F}', '\U{205F}', '\U{3000}'}
  }

  function TrimLeft(s: string): string {
    if s != "" && IsSpace(s[0]) then TrimLeft(s[1..]) else s
  }

  function TrimRight(s: string): string {
    if s != "" && IsSpace(s[|s| - 1]) then TrimRight(s[..|s| - 1]) else s
  }

  function TrimSpace(s: string): string {
    TrimRight(TrimLeft(s))
  }

  predicate Trimmed(s: string) {
    s == "" || (!IsSpace(s[0]) && !IsSpace(s[|s| - 1]))
  }

  lemma {:induction false} TrimLeftStart(s: string)
    ensures var t := TrimLeft(s); t == "" || !IsSpace(t[0])
  {
    if s != "" && IsSpace(s[0]) { TrimLeftStart(s[1..]); }
  }

  lemma {:induction false} TrimRightEnds(s: string)
    requires s == "" || !IsSpace(s[0])
    ensures Trimmed(TrimRight(s))
  {
    if s != "" && IsSpace(s[|s| - 1]) { TrimRightEnds(s[..|s| - 1]); }
  }

  lemma TrimSpaceTrims(s: string)
    ensures Trimmed(TrimSpace(s)) && TrimSpace(TrimSpace(s)) == TrimSpace(s)
    ensures Trimmed(s) ==> TrimSpace(s) == s
  {
    TrimLeftStart(s);
    TrimRightEnds(TrimLeft(s));
  }

  predicate AllSpace(s: string) {
    forall i :: 0 <= i < |s| ==> IsSpace(s[i])
  }

  lemma {:induction false} TrimLeftTakesSpace(s: string)
    ensures |TrimLeft(s)| <= |s| && s[|s| - |TrimLeft(s)|..] == TrimLeft(s)
    ensures AllSpace(s[..|s| - |TrimLeft(s)|])
  {
    if s != "" && IsSpace(s[0]) {
      TrimLeftTakesSpace(s[1..]);
      var k := |s| - |TrimLeft(s)|;
      assert s[..k] == [s[0]] + s[1..][..k - 1];
    }
  }

  lemma {:induction false} TrimRightTakesSpace(s: string)
    ensures |TrimRight(s)| <= |s| && s[..|TrimRight(s)|] == TrimRight(s)
    ensures AllSpace(s[|TrimRight(s)|..])
  {
    if s != "" && IsSpace(s[|s| - 1]) {
      var init := s[..|s| - 1];
      TrimRightTakesSpace(init);
      var k := |TrimRight(s)|;
      assert s[k..] == init[k..] + [s[|s| - 1]];
    }
  }

  /** Trimming takes space off both ends and nothing else, as far as there is any. */
  lemma TrimSpaceTakesSpace(s: string) returns (before: string, after: string)
    ensures s == before + TrimSpace(s) + after && AllSpace(before) && AllSpace(after) && Trimmed(TrimSpace(s))
  {
    var t := TrimLeft(s);
    TrimLeftTakesSpace(s);
    TrimRightTakesSpace(t);
    TrimSpaceTrims(s);
    before, after := s[..|s| - |t|], t[|TrimRight(t)|..];
    MiddlePart(s, t, TrimRight(t));
  }

  lemma MiddlePart(s: string, t: string, r: string)
    requires |r| <= |t| <= |s| && s[|s| - |t|..] == t && t[..|r|] == r
    ensures s == s[..|s| - |t|] + r + t[|r|..]
  {
    assert s == s[..|s| - |t|] + t;
  }

  /** Among the ASCII characters, space is the blank and those from tab to carriage return. */
  lemma AsciiSpace(c: char)
    requires c as int < 128
    ensures IsSpace(c) <==> c as int == 32 || 9 <= c as int <= 13
  {
  }
}
