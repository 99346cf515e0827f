/** Python string operations that the audit-exception script uses. */
module Text {

  /** The characters that `str.strip` removes. */
  predicate IsSpace(c: char) {
    var n := c as int;
    || 0x09 <= n <= 0x0d || 0x1c <= n <= 0x20 || n == 0x85 || n == 0xa0 || n == 0x1680
    || 0x2000 <= n <= 0x200a || n in {0x2028, 0x2029, 0x202f, 0x205f, 0x3000}
  }

  /** Among the ASCII characters: blank, tab, the line breaks and the four separators. */
  lemma AsciiSpaces(c: char)
    requires c as int < 0x80
    ensures IsSpace(c) <==> c in {' ', '\t', '\n', '\r'} || c as int in {0x0b, 0x0c, 0x1c, 0x1d, 0x1e, 0x1f}
  {
  }

  function TrimLeft(s: string): string {
    if s != "" && IsSpace(s[0]) then TrimLeft(s[1..]) else s
  }

  function TrimRight(s: string): string {
    if s != "" && IsSpace(s[|s| - 1]) then TrimRight(s[..|s| - 1]) else s
  }

  function Strip(s: string): string {
    TrimRight(TrimLeft(s))
  }

  lemma {:induction false} TrimLeftSuffix(s: string)
    ensures TrimLeft(s) == "" || !IsSpace(TrimLeft(s)[0])
    ensures forall c | c in TrimLeft(s) :: c in s
  {
    if s != "" && IsSpace(s[0]) {
      TrimLeftSuffix(s[1..]);
    }
  }

  lemma {:induction false} TrimRightPrefix(s: string)
    ensures TrimRight(s) == "" || !IsSpace(TrimRight(s)[|TrimRight(s)| - 1])
    ensures TrimRight(s) <= s
  {
    if s != "" && IsSpace(s[|s| - 1]) {
      TrimRightPrefix(s[..|s| - 1]);
    }
  }

  predicate Trimmed(s: string) {
    s == "" || (!IsSpace(s[0]) && !IsSpace(s[|s| - 1]))
  }

  lemma StripTrims(s: string)
    ensures Trimmed(Strip(s))
    ensures forall c | c in Strip(s) :: c in s
  {
    TrimLeftSuffix(s);
    TrimRightPrefix(TrimLeft(s));
  }

  lemma StripKeeps(s: string)
    requires Trimmed(s)
    ensures Strip(s) == s
  {
  }

  lemma StripSkipsIndent(s: string)
    ensures Strip([' '] + s) == Strip(s)
  {
    assert ([' '] + s)[1..] == s;
  }

  ghost predicate Blank(s: string) {
    forall c | c in s :: IsSpace(c)
  }

  /** What is trimmed on the left, and on the right, is blank. */
  lemma {:induction false} TrimLeftSplits(s: string) returns (front: string)
    ensures Blank(front) && s == front + TrimLeft(s)
  {
    front := "";
    if s != "" && IsSpace(s[0]) {
      var rest := TrimLeftSplits(s[1..]);
      front := [s[0]] + rest;
      assert s == [s[0]] + s[1..];
    }
  }

  lemma {:induction false} TrimRightSplits(s: string) returns (back: string)
    ensures Blank(back) && s == TrimRight(s) + back
  {
    back := "";
    if s != "" && IsSpace(s[|s| - 1]) {
      var rest := TrimRightSplits(s[..|s| - 1]);
      back := rest + [s[|s| - 1]];
      assert s == s[..|s| - 1] + [s[|s| - 1]];
    }
  }

  /** Stripping takes blanks off both ends, as many as there are, and nothing else. */
  lemma StripSplits(s: string) returns (front: string, back: string)
    ensures Blank(front) && Blank(back) && s == front + Strip(s) + back && Trimmed(Strip(s))
  {
    front := TrimLeftSplits(s);
    back := TrimRightSplits(TrimLeft(s));
    StripTrims(s);
  }

  lemma {:induction false} TrimRightKeeps(s: string, t: string)
    requires Blank(t)
    ensures TrimRight(s + t) == TrimRight(s)
    decreases |t|
  {
    if t == "" {
      assert s + t == s;
    } else {
      var n := |t| - 1;
      assert t[n] in t && forall c | c in t[..n] :: c in t;
      assert (s + t)[..|s + t| - 1] == s + t[..n];
      TrimRightKeeps(s, t[..n]);
    }
  }

  lemma {:induction false} TrimLeftBefore(s: string, t: string)
    ensures TrimLeft(s + t) == if TrimLeft(s) == "" then TrimLeft(t) else TrimLeft(s) + t
    decreases |s|
  {
    if s == "" {
      assert s + t == t;
    } else if IsSpace(s[0]) {
      assert (s + t)[1..] == s[1..] + t;
      TrimLeftBefore(s[1..], t);
    }
  }

  lemma {:induction false} BlankTrimsAway(s: string)
    requires Blank(s)
    ensures TrimLeft(s) == ""
  {
    if s != "" {
      assert s[0] in s && forall c | c in s[1..] :: c in s;
      BlankTrimsAway(s[1..]);
    }
  }

  lemma StripBefore(s: string, back: string)
    requires Blank(back)
    ensures Strip(s + back) == Strip(s)
  {
    TrimLeftBefore(s, back);
    BlankTrimsAway(back);
    TrimRightKeeps(TrimLeft(s), back);
  }

  lemma StripTrimRight(s: string)
    ensures Strip(TrimRight(s)) == Strip(s)
  {
    var back := TrimRightSplits(s);
    StripBefore(TrimRight(s), back);
  }

  lemma {:induction false} StripTrimLeft(s: string)
    ensures Strip(TrimLeft(s)) == Strip(s)
  {
    if s != "" && IsSpace(s[0]) {
      StripTrimLeft(s[1..]);
    }
  }

  lemma {:induction false} ColonKeepsRight(a: string, t: string)
    ensures TrimLeft(a + ":" + t) == TrimLeft(a) + ":" + t
    decreases |a|
  {
    var s := a + ":" + t;
    if a == "" {
      assert s[0] == ':';
    } else if IsSpace(a[0]) {
      assert s[0] == a[0] && s[1..] == a[1..] + ":" + t;
      ColonKeepsRight(a[1..], t);
    } else {
      assert s[0] == a[0];
    }
  }

  lemma {:induction false} ColonKeepsLeft(a: string, t: string)
    ensures TrimRight(a + ":" + t) == a + ":" + TrimRight(t)
    decreases |t|
  {
    var s := a + ":" + t;
    if t == "" {
      assert s == a + ":" && s[|s| - 1] == ':';
    } else if IsSpace(t[|t| - 1]) {
      assert s[|s| - 1] == t[|t| - 1] && s[..|s| - 1] == a + ":" + t[..|t| - 1];
      ColonKeepsLeft(a, t[..|t| - 1]);
    } else {
      assert s[|s| - 1] == t[|t| - 1];
    }
  }

  /** A colon is no blank: only what is before it is trimmed on the left, and only what is after it on the right. */
  lemma StripAroundColon(a: string, t: string)
    ensures Strip(a + ":" + t) == TrimLeft(a) + ":" + TrimRight(t)
  {
    ColonKeepsRight(a, t);
    ColonKeepsLeft(TrimLeft(a), t);
  }

  predicate StartsWith(s: string, prefix: string) {
    prefix <= s
  }

  /** The position of the first `c`, or the length. */
  function Find(s: string, c: char): (i: nat)
    ensures i <= |s| && (i < |s| ==> s[i] == c)
  {
    if s == "" || s[0] == c then 0 else 1 + Find(s[1..], c)
  }

  lemma {:induction false} FindFirst(s: string, c: char)
    ensures c !in s[..Find(s, c)]
    ensures Find(s, c) == |s| <==> c !in s
  {
    if s != "" && s[0] != c {
      FindFirst(s[1..], c);
      var i := Find(s[1..], c);
      assert s[..i + 1] == [s[0]] + s[1..][..i];
      assert s == [s[0]] + s[1..];
    }
  }
}
