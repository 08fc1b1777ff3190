/** Go's strings functions, as far as the model needs them; separators are one character. */
module Text {

  function Split(s: string, c: char): (r: seq<string>)
    ensures |r| >= 1
  {
    if s == [] then [[]]
    else
      var rest := Split(s[1..], c);
      if s[0] == c then [[]] + rest else [[s[0]] + rest[0]] + rest[1..]
  }

  /** At most `n` pieces; the last one keeps the separators left in it. */
  function SplitN(s: string, c: char, n: nat): (r: seq<string>)
    requires n >= 1
    ensures 1 <= |r| <= n
    decreases |s|
  {
    if n == 1 || s == [] then [s]
    else if s[0] == c then [[]] + SplitN(s[1..], c, n - 1)
    else
      var rest := SplitN(s[1..], c, n);
      [[s[0]] + rest[0]] + rest[1..]
  }

  function Join(parts: seq<string>, c: char): string
  {
    if parts == [] then ""
    else if |parts| == 1 then parts[0]
    else parts[0] + [c] + Join(parts[1..], c)
  }

  predicate HasPrefix(s: string, prefix: string)
  {
    prefix <= s
  }

  function TrimPrefix(s: string, prefix: string): string
  {
    if HasPrefix(s, prefix) then s[|prefix|..] else s
  }

  /** The code points Go's strings.TrimSpace trims. */
  predicate Space(c: char)
  {
    || '\t' <= c <= '\r' || c == ' ' || c == '\U{85}' || c == '\U{A0}' || c == '\U{1680}'
    || '\U{2000}' <= c <= '\U{200A}' || c == '\U{2028}' || c == '\U{2029}' || c == '\U{202F}'
    || c == '\U{205F}' || c == '\U{3000}'
  }

  function TrimSpace(s: string): (r: string)
    ensures r == "" || (!Space(r[0]) && !Space(r[|r| - 1]))
  {
    if s == "" then ""
    else if Space(s[0]) then TrimSpace(s[1..])
    else if Space(s[|s| - 1]) then TrimSpace(s[..|s| - 1])
    else s
  }

  predicate Digits(s: string)
  {
    forall i | 0 <= i < |s| :: '0' <= s[i] <= '9'
  }

  function Value(s: string): nat
    requires Digits(s)
  {
    if s == "" then 0 else Value(s[..|s| - 1]) * 10 + (s[|s| - 1] as int - 48)
  }

  function Decimal(n: nat): (r: string)
    ensures r != "" && Digits(r) && Value(r) == n
  {
    var last := [(48 + n % 10) as char];
    if n < 10 then
      assert last[..0] == "";
      last
    else
      var front := Decimal(n / 10);
      assert (front + last)[..|front|] == front;
      front + last
  }

  lemma {:induction false} SplitFree(s: string, c: char)
    requires c !in s
    ensures Split(s, c) == [s]
  {
    if s != [] {
      SplitFree(s[1..], c);
      assert s == [s[0]] + s[1..];
    }
  }

  lemma {:induction false} SplitCut(a: string, c: char, b: string)
    requires c !in a
    ensures Split(a + [c] + b, c) == [a] + Split(b, c)
  {
    if a == [] {
      assert a + [c] + b == [c] + b;
    } else {
      assert (a + [c] + b)[1..] == a[1..] + [c] + b;
      SplitCut(a[1..], c, b);
      assert a == [a[0]] + a[1..];
      assert ([a[1..]] + Split(b, c))[1..] == Split(b, c);
    }
  }

  lemma {:induction false} SplitNFree(s: string, c: char, n: nat)
    requires n >= 1 && c !in s
    ensures SplitN(s, c, n) == [s]
  {
    if s != [] {
      SplitNFree(s[1..], c, n);
      assert s == [s[0]] + s[1..];
    }
  }

  lemma {:induction false} SplitNCut(a: string, c: char, b: string, n: nat)
    requires n >= 2 && c !in a
    ensures SplitN(a + [c] + b, c, n) == [a] + SplitN(b, c, n - 1)
  {
    if a == [] {
      assert a + [c] + b == [c] + b;
    } else {
      assert (a + [c] + b)[1..] == a[1..] + [c] + b;
      SplitNCut(a[1..], c, b, n);
      assert a == [a[0]] + a[1..];
      assert ([a[1..]] + SplitN(b, c, n - 1))[1..] == SplitN(b, c, n - 1);
    }
  }

  /** Only the n-th part may hold the separator. */
  lemma {:induction false} SplitNParts(s: string, c: char, n: nat)
    requires n >= 1
    ensures forall i | 0 <= i < |SplitN(s, c, n)| && i < n - 1 :: c !in SplitN(s, c, n)[i]
  {
    if n > 1 && s != [] {
      if s[0] == c {
        SplitNParts(s[1..], c, n - 1);
      } else {
        SplitNParts(s[1..], c, n);
      }
    }
  }

  /** Joined fields split back into themselves; only an n-th field may hold the separator. */
  lemma {:induction false} SplitNJoin(fields: seq<string>, c: char, n: nat)
    requires 1 <= |fields| <= n
    requires forall i | 0 <= i < |fields| :: c in fields[i] ==> i == n - 1
    ensures SplitN(Join(fields, c), c, n) == fields
  {
    if |fields| == 1 {
      if n > 1 {
        SplitNFree(fields[0], c, n);
      }
    } else {
      SplitNCut(fields[0], c, Join(fields[1..], c), n);
      forall i | 0 <= i < |fields[1..]|
        ensures c in fields[1..][i] ==> i == n - 2
      {
        assert fields[1..][i] == fields[i + 1];
      }
      SplitNJoin(fields[1..], c, n - 1);
    }
  }

  /** Joined parts, cut before the i-th. */
  lemma {:induction false} JoinCut(parts: seq<string>, c: char, i: nat)
    requires i < |parts|
    ensures Join(parts, c) == (if i == 0 then "" else Join(parts[..i], c) + [c]) + Join(parts[i..], c)
  {
    if i > 0 {
      JoinCut(parts[1..], c, i - 1);
      assert parts[1..][..i - 1] == parts[..i][1..] && parts[1..][i - 1..] == parts[i..];
    }
  }

  lemma {:induction false} JoinSplit(s: string, c: char)
    ensures Join(Split(s, c), c) == s
  {
    if s != [] {
      JoinSplit(s[1..], c);
      var rest := Split(s[1..], c);
      if |rest| == 1 {
        assert s == [s[0]] + s[1..];
      } else {
        assert s == [s[0]] + s[1..];
        assert ([[s[0]] + rest[0]] + rest[1..])[1..] == rest[1..];
      }
    }
  }
}
