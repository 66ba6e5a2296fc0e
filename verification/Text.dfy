/** Trimming, as every admin does it before it stores text. */
module Text {
  /** Unicode White_Space. */
  predicate IsWhitespace(c: char) {
    var n := c as int;
    9 <= n <= 13 || n == 0x20 || n == 0x85 || n == 0xA0 || n == 0x1680
    || 0x2000 <= n <= 0x200A || n == 0x2028 || n == 0x2029 || n == 0x202F || n == 0x205F || n == 0x3000
  }

  function TrimStart(s: string): string {
    if s != "" && IsWhitespace(s[0]) then TrimStart(s[1..]) else s
  }

  function TrimEnd(s: string): string {
    if s != "" && IsWhitespace(s[|s| - 1]) then TrimEnd(s[..|s| - 1]) else s
  }

  function Trim(s: string): string {
    TrimEnd(TrimStart(s))
  }

  /** The 25 characters with the Unicode property White_Space. */
  const WHITE_SPACE: set<int> :=
    {0x09, 0x0A, 0x0B, 0x0C, 0x0D, 0x20, 0x85, 0xA0, 0x1680, 0x2000, 0x2001, 0x2002, 0x2003, 0x2004, 0x2005,
     0x2006, 0x2007, 0x2008, 0x2009, 0x200A, 0x2028, 0x2029, 0x202F, 0x205F, 0x3000}

  lemma WhitespaceCharacters(c: char)
    ensures IsWhitespace(c) <==> c as int in WHITE_SPACE
  {
  }

  ghost predicate AllWhitespace(s: string) {
    forall c | c in s :: IsWhitespace(c)
  }

  /** It does not begin or end in whitespace. */
  predicate IsTrimmed(s: string) {
    s != "" ==> !IsWhitespace(s[0]) && !IsWhitespace(s[|s| - 1])
  }

  lemma {:induction false} TrimStartSpec(s: string) returns (front: string)
    ensures s == front + TrimStart(s) && AllWhitespace(front)
    ensures TrimStart(s) != "" ==> !IsWhitespace(TrimStart(s)[0])
    decreases |s|
  {
    front := "";
    if s != "" && IsWhitespace(s[0]) {
      var rest := TrimStartSpec(s[1..]);
      front := [s[0]] + rest;
      assert s == [s[0]] + s[1..];
    }
  }

  lemma {:induction false} TrimEndSpec(s: string) returns (back: string)
    ensures s == TrimEnd(s) + back && AllWhitespace(back)
    ensures TrimEnd(s) != "" ==> !IsWhitespace(TrimEnd(s)[|TrimEnd(s)| - 1])
    decreases |s|
  {
    back := "";
    if s != "" && IsWhitespace(s[|s| - 1]) {
      var rest := TrimEndSpec(s[..|s| - 1]);
      back := rest + [s[|s| - 1]];
      assert s == s[..|s| - 1] + [s[|s| - 1]];
    }
  }

  /** Trimming takes whitespace off both ends, and all of it. */
  lemma TrimSpec(s: string) returns (front: string, back: string)
    ensures s == front + Trim(s) + back && AllWhitespace(front) && AllWhitespace(back) && IsTrimmed(Trim(s))
  {
    front := TrimStartSpec(s);
    back := TrimEndSpec(TrimStart(s));
    assert Trim(s) != "" ==> TrimStart(s)[0] == Trim(s)[0];
  }

  lemma {:induction false} TrimStartPeels(front: string, t: string)
    requires AllWhitespace(front)
    ensures TrimStart(front + t) == TrimStart(t)
    decreases |front|
  {
    if front == "" {
      assert front + t == t;
    } else {
      assert (front + t)[1..] == front[1..] + t && (front + t)[0] == front[0] && front[0] in front;
      TrimStartPeels(front[1..], t);
    }
  }

  lemma {:induction false} TrimEndPeels(t: string, back: string)
    requires AllWhitespace(back)
    ensures TrimEnd(t + back) == TrimEnd(t)
    decreases |back|
  {
    if back == "" {
      assert t + back == t;
    } else {
      var init := back[..|back| - 1];
      assert (t + back)[..|t + back| - 1] == t + init && back[|back| - 1] in back;
      TrimEndPeels(t, init);
    }
  }

  /** And it is the only such rest: what remains does not depend on how much whitespace was around it. */
  lemma TrimIsTheMiddle(front: string, t: string, back: string)
    requires AllWhitespace(front) && AllWhitespace(back) && IsTrimmed(t)
    ensures Trim(front + t + back) == t
  {
    assert front + t + back == front + (t + back);
    TrimStartPeels(front, t + back);
    if t == "" {
      assert t + back == back + "";
      TrimStartPeels(back, "");
    } else {
      assert (t + back)[0] == t[0];
      TrimEndPeels(t, back);
    }
  }
}
