/** Substrings, joins and SQL LIKE patterns. */
module TextSearch {

  predicate FoundAt(s: string, n: string, i: int) { 0 <= i <= |s| - |n| && s[i..i + |n|] == n }

  /** strings.Contains */
  predicate Contains(s: string, n: string) { exists i :: 0 <= i <= |s| && FoundAt(s, n, i) }

  lemma FoundChar(s: string, n: string, i: nat, j: nat)
    requires FoundAt(s, n, i) && i <= j < i + |n|
    ensures s[j] == n[j - i] && s[j] in n
  {
    assert s[j] == s[i..i + |n|][j - i];
  }

  /** strings.Join(ts, " ") */
  function Join(ts: seq<string>): string {
    if ts == [] then "" else if |ts| == 1 then ts[0] else ts[0] + " " + Join(ts[1..])
  }

  lemma FoundInLeft(a: string, c: string, n: string, i: nat)
    requires i + |n| <= |a|
    ensures FoundAt(a + c, n, i) <==> FoundAt(a, n, i)
  {
    assert (a + c)[i..i + |n|] == a[i..i + |n|];
  }

  lemma FoundInRight(c: string, b: string, n: string, i: nat)
    requires i + |n| <= |b|
    ensures FoundAt(c + b, n, |c| + i) <==> FoundAt(b, n, i)
  {
    assert (c + b)[|c| + i..|c| + i + |n|] == b[i..i + |n|];
  }

  /** A needle without a space is found in `a + " " + b` exactly when it is in one of the two. */
  lemma ContainsAroundSpace(a: string, b: string, n: string)
    requires n != "" && ' ' !in n
    ensures Contains(a + " " + b, n) <==> Contains(a, n) || Contains(b, n)
  {
    var c := a + " ";
    var s := c + b;
    assert s == a + (" " + b);
    if i: nat :| i <= |s| && FoundAt(s, n, i) {
      if i + |n| <= |a| {
        FoundInLeft(a, " " + b, n, i);
      } else if i <= |a| {
        FoundChar(s, n, i, |a|);
        assert false;
      } else {
        FoundInRight(c, b, n, i - |c|);
      }
    }
    if i: nat :| i <= |a| && FoundAt(a, n, i) {
      FoundInLeft(a, " " + b, n, i);
    }
    if i: nat :| i <= |b| && FoundAt(b, n, i) {
      FoundInRight(c, b, n, i);
    }
  }

  /** A needle without a space is found in a space-joined list exactly when some token contains it. */
  lemma {:induction false} ContainsInJoin(ts: seq<string>, n: string)
    requires n != "" && ' ' !in n
    ensures Contains(Join(ts), n) <==> exists t :: t in ts && Contains(t, n)
  {
    if |ts| == 1 {
      assert ts[0] in ts;
    } else if |ts| > 1 {
      ContainsAroundSpace(ts[0], Join(ts[1..]), n);
      ContainsInJoin(ts[1..], n);
      assert forall t :: t in ts <==> t == ts[0] || t in ts[1..];
    }
  }

  /** A token: a backslash followed by something without backslashes. */
  predicate IsToken(t: string) { |t| > 1 && t[0] == '\\' && '\\' !in t[1..] }

  lemma OnlyFrontBackslash(t: string)
    requires IsToken(t)
    ensures forall i :: 0 < i < |t| ==> t[i] != '\\'
  {
    assert forall i :: 0 < i < |t| ==> t[i] == t[1..][i - 1];
  }

  /** Inside a token, a backslash-led needle can only be found at the front. */
  lemma ContainsInToken(t: string, n: string)
    requires IsToken(t) && n != "" && n[0] == '\\'
    ensures Contains(t, n) <==> n <= t
  {
    OnlyFrontBackslash(t);
    if i :| 0 <= i <= |t| && FoundAt(t, n, i) {
      FoundChar(t, n, i, i);
    }
    if n <= t { assert FoundAt(t, n, 0); }
  }

  /** A needle whose first character does not occur is not found. */
  lemma NotContained(t: string, n: string)
    requires n != "" && n[0] !in t
    ensures !Contains(t, n)
  {
    forall i | 0 <= i <= |t| - |n| ensures !FoundAt(t, n, i) {
      assert t[i..i + |n|][0] == t[i];
    }
  }

  // ---- splitting

  /** strings.SplitN(s, sep, n) for a one-character separator and n > 0. */
  function SplitN(s: string, sep: char, n: nat): seq<string>
    requires n > 0
    decreases n
  {
    if n == 1 || sep !in s then [s]
    else var i := IndexOf(s, sep); [s[..i]] + SplitN(s[i + 1..], sep, n - 1)
  }

  /** strings.Split */
  function Split(s: string, sep: char): seq<string>
    decreases |s|
  {
    if sep !in s then [s] else var i := IndexOf(s, sep); [s[..i]] + Split(s[i + 1..], sep)
  }

  function IndexOf(s: string, c: char): (i: nat)
    requires c in s
    ensures i < |s| && s[i] == c && c !in s[..i]
  {
    if s[0] == c then 0
    else
      var i := 1 + IndexOf(s[1..], c);
      assert s[..i] == [s[0]] + s[1..][..i - 1];
      i
  }

  lemma {:induction false} IndexAfter(a: string, c: char, b: string)
    requires c !in a
    ensures IndexOf(a + [c] + b, c) == |a|
  {
    if a != "" {
      IndexAfter(a[1..], c, b);
      assert (a + [c] + b)[1..] == a[1..] + [c] + b;
    }
  }

  lemma SplitFirst(a: string, sep: char, b: string, n: nat)
    requires sep !in a && n > 1
    ensures SplitN(a + [sep] + b, sep, n) == [a] + SplitN(b, sep, n - 1)
    ensures Split(a + [sep] + b, sep) == [a] + Split(b, sep)
  {
    IndexAfter(a, sep, b);
    assert (a + [sep] + b)[|a|] == sep;
    assert (a + [sep] + b)[..|a|] == a;
    assert (a + [sep] + b)[|a| + 1..] == b;
  }

  /** Taking the first piece off, whatever the text is: what it says, and what is split further. */
  lemma SplitCut(s: string, sep: char, n: nat)
    requires n > 1
    ensures |SplitN(s, sep, n)| >= 2 <==> sep in s
    ensures sep in s ==>
              var a, b := s[..IndexOf(s, sep)], s[IndexOf(s, sep) + 1..];
              && s == a + [sep] + b && sep !in a
              && SplitN(s, sep, n) == [a] + SplitN(b, sep, n - 1) && Split(s, sep) == [a] + Split(b, sep)
  {}

  // ---- SQL --------------------------------------------------------------------------------------------------------

  /** The value of a single-quoted SQL string literal whose only escapes are doubled backslashes. */
  function SqlLiteral(q: string): string {
    if q == "" then ""
    else if |q| >= 2 && q[0] == '\\' then [q[1]] + SqlLiteral(q[2..])
    else [q[0]] + SqlLiteral(q[1..])
  }

  lemma {:induction false} SqlLiteralPlain(w: string)
    requires '\\' !in w
    ensures SqlLiteral(w) == w
  {
    if w != "" { SqlLiteralPlain(w[1..]); }
  }

  /** `s LIKE p`: % stands for any string, _ for any character, and a backslash takes the next character literally. */
  predicate Like(s: string, p: string)
    decreases |p|
  {
    if p == "" then s == ""
    else if p[0] == '%' then exists i :: 0 <= i <= |s| && Like(s[i..], p[1..])
    else if p[0] == '\\' && |p| >= 2 then s != "" && s[0] == p[1] && Like(s[1..], p[2..])
    else s != "" && (p[0] == '_' || s[0] == p[0]) && Like(s[1..], p[1..])
  }

  predicate Plain(w: string) { '%' !in w && '_' !in w && '\\' !in w }

  lemma {:induction false} LikePrefix(s: string, w: string)
    requires Plain(w)
    ensures Like(s, w + "%") <==> w <= s
  {
    if w == "" {
      assert w + "%" == "%";
      assert s[|s|..] == "";
      assert Like(s[|s|..], "%"[1..]);
    } else {
      assert (w + "%")[1..] == w[1..] + "%";
      if s != "" {
        LikePrefix(s[1..], w[1..]);
        assert w <= s <==> s[0] == w[0] && w[1..] <= s[1..];
      }
    }
  }

  /** What MariaDB makes of the literal '%\\\\w%', which is how the program spells its LIKE patterns. */
  function SqlPattern(w: string): string { SqlLiteral("%\\\\" + w + "%") }

  lemma SqlPatternIs(w: string)
    requires Plain(w)
    ensures SqlPattern(w) == "%\\" + w + "%"
  {
    var q := "%\\\\" + w + "%";
    assert q[1..] == "\\\\" + w + "%";
    assert q[1..][2..] == w + "%";
    SqlLiteralPlain(w + "%");
    assert SqlLiteral(q[1..]) == ['\\'] + SqlLiteral(q[1..][2..]);
    assert SqlLiteral(q) == ['%'] + SqlLiteral(q[1..]);
  }

  /** The literal's doubled backslash becomes one, and in a LIKE pattern one backslash only escapes: the test finds
      every string that contains `w`, with or without a backslash before it. */
  lemma LikeIsContains(s: string, w: string)
    requires w != "" && Plain(w)
    ensures Like(s, SqlPattern(w)) <==> Contains(s, w)
  {
    SqlPatternIs(w);
    var p := "%\\" + w + "%";
    forall i | 0 <= i <= |s| ensures Like(s[i..], p[1..]) <==> FoundAt(s, w, i) {
      LikeEscaped(s[i..], w, p[1..]);
      assert w <= s[i..] <==> FoundAt(s, w, i);
    }
  }

  lemma LikeEscaped(t: string, w: string, p: string)
    requires w != "" && Plain(w) && p == "\\" + w + "%"
    ensures Like(t, p) <==> w <= t
  {
    assert p[2..] == w[1..] + "%";
    if t != "" {
      LikePrefix(t[1..], w[1..]);
      assert w <= t <==> t[0] == w[0] && w[1..] <= t[1..];
    }
  }
}
