/** The string operations of Go's standard library that the models rely on. */
module Text {

  // ----- Split and Join -----

  /** strings.Split with a one-character separator. */
  function Split(s: string, sep: char): (parts: seq<string>)
    ensures |parts| >= 1
    ensures forall p | p in parts :: sep !in p
  {
    if s == "" then [""]
    else
      var rest := Split(s[1..], sep);
      if s[0] == sep then [""] + rest
      else [[s[0]] + rest[0]] + rest[1..]
  }

  /** strings.Join. */
  function Join(parts: seq<string>, sep: char): string {
    if parts == [] then ""
    else if |parts| == 1 then parts[0]
    else parts[0] + [sep] + Join(parts[1..], sep)
  }

  lemma {:induction false} JoinOfSplit(s: string, sep: char)
    ensures Join(Split(s, sep), sep) == s
  {
    if s != "" {
      JoinOfSplit(s[1..], sep);
      var rest := Split(s[1..], sep);
      var parts := Split(s, sep);
      if s[0] == sep {
        assert parts[1..] == rest;
      } else {
        assert parts[1..] == rest[1..];
      }
    }
  }

  lemma {:induction false} SplitOfCons(p: string, rest: string, sep: char)
    requires sep !in p
    ensures Split(p + [sep] + rest, sep) == [p] + Split(rest, sep)
  {
    if p == "" {
      assert (p + [sep] + rest)[1..] == rest;
    } else {
      assert (p + [sep] + rest)[1..] == p[1..] + [sep] + rest;
      assert p == [p[0]] + p[1..];
      SplitOfCons(p[1..], rest, sep);
    }
  }

  lemma {:induction false} SplitOfPlain(p: string, sep: char)
    requires sep !in p
    ensures Split(p, sep) == [p]
  {
    if p != "" {
      SplitOfPlain(p[1..], sep);
      assert p == [p[0]] + p[1..];
    }
  }

  lemma {:induction false} SplitOfJoin(parts: seq<string>, sep: char)
    requires parts != [] && forall p | p in parts :: sep !in p
    ensures Split(Join(parts, sep), sep) == parts
  {
    if |parts| == 1 {
      SplitOfPlain(parts[0], sep);
    } else {
      SplitOfJoin(parts[1..], sep);
      SplitOfCons(parts[0], Join(parts[1..], sep), sep);
    }
  }

  lemma {:induction false} SplitKeepsCharacters(s: string, sep: char, c: char)
    requires c !in s
    ensures forall p | p in Split(s, sep) :: c !in p
  {
    if s != "" {
      SplitKeepsCharacters(s[1..], sep, c);
    }
  }

  // ----- TrimSpace -----

  /** unicode.IsSpace. */
  predicate IsSpace(c: char) {
    || '\t' <= c <= '\r' || c == ' ' || c == 0x85 as char || c == 0xA0 as char
    || c == 0x1680 as char || 0x2000 as char <= c <= 0x200a as char || c == 0x2028 as char
    || c == 0x2029 as char || c == 0x202f as char || c == 0x205f as char || c == 0x3000 as char
  }

  function TrimLeft(s: string): string {
    if s != "" && IsSpace(s[0]) then TrimLeft(s[1..]) else s
  }

  function TrimRight(s: string): string {
    if s != "" && IsSpace(s[|s| - 1]) then TrimRight(s[..|s| - 1]) else s
  }

  function TrimSpace(s: string): string {
    TrimRight(TrimLeft(s))
  }

  predicate Trimmed(s: string) {
    s != "" ==> !IsSpace(s[0]) && !IsSpace(s[|s| - 1])
  }

  lemma {:induction false} TrimLeftResult(s: string)
    ensures exists i | 0 <= i <= |s| :: TrimLeft(s) == s[i..]
    ensures TrimLeft(s) != "" ==> !IsSpace(TrimLeft(s)[0])
  {
    if s != "" && IsSpace(s[0]) {
      TrimLeftResult(s[1..]);
      var i :| 0 <= i <= |s[1..]| && TrimLeft(s[1..]) == s[1..][i..];
      assert s[1..][i..] == s[i + 1..];
    } else {
      assert s == s[0..];
    }
  }

  lemma {:induction false} TrimRightResult(s: string)
    ensures exists j | 0 <= j <= |s| :: TrimRight(s) == s[..j]
    ensures TrimRight(s) != "" ==> !IsSpace(TrimRight(s)[|TrimRight(s)| - 1])
  {
    if s != "" && IsSpace(s[|s| - 1]) {
      TrimRightResult(s[..|s| - 1]);
      var j :| 0 <= j <= |s| - 1 && TrimRight(s[..|s| - 1]) == s[..|s| - 1][..j];
      assert s[..|s| - 1][..j] == s[..j];
    } else {
      assert s == s[..|s|];
    }
  }

  /** The result is a part of `s` with no space at either end. */
  lemma TrimSpaceResult(s: string)
    ensures Trimmed(TrimSpace(s))
    ensures forall c | c in TrimSpace(s) :: c in s
  {
    TrimLeftResult(s);
    TrimRightResult(TrimLeft(s));
  }

  lemma TrimSpaceOfTrimmed(s: string)
    requires Trimmed(s)
    ensures TrimSpace(s) == s
  {
  }

  predicate AllSpace(s: string) {
    forall c | c in s :: IsSpace(c)
  }

  lemma {:induction false} TrimLeftSkips(a: string, s: string)
    requires AllSpace(a)
    ensures TrimLeft(a + s) == TrimLeft(s)
  {
    if a == "" {
      assert a + s == s;
    } else {
      assert a[0] in a && forall c | c in a[1..] :: c in a;
      TrimLeftSkips(a[1..], s);
      assert (a + s)[1..] == a[1..] + s;
    }
  }

  lemma {:induction false} TrimRightSkips(s: string, b: string)
    requires AllSpace(b)
    ensures TrimRight(s + b) == TrimRight(s)
  {
    if b == "" {
      assert s + b == s;
    } else {
      assert b[|b| - 1] in b && forall c | c in b[..|b| - 1] :: c in b;
      TrimRightSkips(s, b[..|b| - 1]);
      assert (s + b)[..|s + b| - 1] == s + b[..|b| - 1];
    }
  }

  /** Exactly the spaces around a text are taken away. */
  lemma TrimSpaceStrips(a: string, t: string, b: string)
    requires AllSpace(a) && AllSpace(b) && Trimmed(t)
    ensures TrimSpace(a + t + b) == t
  {
    assert a + t + b == a + (t + b);
    TrimLeftSkips(a, t + b);
    if t == "" {
      assert t + b == b == b + "";
      TrimLeftSkips(b, "");
    } else {
      assert (t + b)[0] == t[0];
      TrimRightSkips(t, b);
    }
  }

  lemma {:induction false} TrimLeftOf(l: string, c: char, r: string)
    requires !IsSpace(c)
    ensures TrimLeft(l + [c] + r) == TrimLeft(l) + [c] + r
  {
    if l == "" {
      assert l + [c] + r == [c] + r;
    } else {
      assert (l + [c] + r)[0] == l[0] && (l + [c] + r)[1..] == l[1..] + [c] + r;
      TrimLeftOf(l[1..], c, r);
    }
  }

  lemma {:induction false} TrimRightOf(l: string, c: char, r: string)
    requires !IsSpace(c)
    ensures TrimRight(l + [c] + r) == l + [c] + TrimRight(r)
  {
    var s := l + [c] + r;
    if r == "" {
      assert s == l + [c];
    } else {
      assert s[|s| - 1] == r[|r| - 1] && s[..|s| - 1] == l + [c] + r[..|r| - 1];
      TrimRightOf(l, c, r[..|r| - 1]);
    }
  }

  /** Around a separator that is no space, a text is trimmed at both its ends. */
  lemma TrimAround(l: string, c: char, r: string)
    requires !IsSpace(c)
    ensures TrimSpace(l + [c] + r) == TrimLeft(l) + [c] + TrimRight(r)
  {
    TrimLeftOf(l, c, r);
    TrimRightOf(TrimLeft(l), c, r);
  }

  lemma {:induction false} TrimLeftTwice(s: string)
    ensures TrimLeft(TrimLeft(s)) == TrimLeft(s)
  {
    if s != "" && IsSpace(s[0]) {
      TrimLeftTwice(s[1..]);
    }
  }

  lemma {:induction false} TrimRightTwice(s: string)
    ensures TrimRight(TrimRight(s)) == TrimRight(s)
  {
    if s != "" && IsSpace(s[|s| - 1]) {
      TrimRightTwice(s[..|s| - 1]);
    }
  }

  lemma {:induction false} FirstNonSpace(s: string) returns (a: string, c: char, r: string)
    requires !AllSpace(s)
    ensures s == a + [c] + r && AllSpace(a) && !IsSpace(c)
  {
    if IsSpace(s[0]) {
      assert s == [s[0]] + s[1..];
      a, c, r := FirstNonSpace(s[1..]);
      a := [s[0]] + a;
    } else {
      a, c, r := "", s[0], s[1..];
    }
  }

  lemma TrimsCommute(s: string)
    ensures TrimRight(TrimLeft(s)) == TrimLeft(TrimRight(s))
  {
    if AllSpace(s) {
      TrimLeftSkips(s, "");
      TrimRightSkips("", s);
      assert s + "" == s == "" + s;
    } else {
      var a, c, r := FirstNonSpace(s);
      TrimLeftOf(a, c, r);
      TrimRightOf(a, c, r);
      TrimRightOf(TrimLeft(a), c, r);
      TrimLeftOf(a, c, TrimRight(r));
    }
  }

  lemma TrimOfTrimmedEnds(s: string)
    ensures TrimSpace(TrimLeft(s)) == TrimSpace(s) && TrimSpace(TrimRight(s)) == TrimSpace(s)
  {
    TrimLeftTwice(s);
    TrimsCommute(s);
    TrimsCommute(TrimRight(s));
    TrimRightTwice(s);
  }

  // ----- searching -----

  /** The position of the first `c`, or |s| when there is none. */
  function IndexOf(s: string, c: char): (i: nat)
    ensures i <= |s|
    ensures i < |s| ==> s[i] == c
    ensures forall j | 0 <= j < i :: s[j] != c
    ensures c in s <==> i < |s|
  {
    if s == "" then 0
    else if s[0] == c then 0
    else 1 + IndexOf(s[1..], c)
  }

  predicate HasSuffix(s: string, suffix: string) {
    |suffix| <= |s| && s[|s| - |suffix|..] == suffix
  }

  function TrimSuffix(s: string, suffix: string): string {
    if HasSuffix(s, suffix) then s[..|s| - |suffix|] else s
  }

  // ----- case, for the letters A to Z -----

  function LowerChar(c: char): char {
    if 'A' <= c <= 'Z' then (c as int - 'A' as int + 'a' as int) as char else c
  }

  function Lower(s: string): (t: string)
    ensures |t| == |s|
  {
    seq(|s|, i requires 0 <= i < |s| => LowerChar(s[i]))
  }

  /** Capital letters move by 32, nothing else does. */
  lemma LowerAt(s: string, i: nat)
    requires i < |s|
    ensures Lower(s)[i] as int == if 'A' <= s[i] <= 'Z' then s[i] as int + 32 else s[i] as int
  {
  }

  /** strings.EqualFold. */
  predicate EqualFold(s: string, t: string) {
    Lower(s) == Lower(t)
  }
}
