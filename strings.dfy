/** The few Python `str` operations the symbol classifier relies on, written
    over `seq<char>`: substring containment (`t in s`), `split` on one
    character, left-to-right `replace` and ASCII `upper`. */
module Strings {

  type String = seq<char>

  /** `t` occurs in `s` starting at index `i`. */
  predicate OccursAt(s: String, t: String, i: nat)
  {
    i + |t| <= |s| && s[i..i + |t|] == t
  }

  /** Python's `t in s` for two strings. */
  function Contains(s: String, t: String): bool
    decreases |s|
  {
    t <= s || (|s| > 0 && Contains(s[1..], t))
  }

  /** Containment means an occurrence at some index, and back. */
  lemma {:induction false} ContainsIff(s: String, t: String)
    ensures Contains(s, t) <==> exists i: nat :: OccursAt(s, t, i)
    decreases |s|
  {
    if Contains(s, t) {
      if t <= s {
        assert OccursAt(s, t, 0);
      } else {
        ContainsIff(s[1..], t);
        var i: nat :| OccursAt(s[1..], t, i);
        OccursShift(s, t, i);
      }
    }
    if exists i: nat :: OccursAt(s, t, i) {
      var i: nat :| OccursAt(s, t, i);
      if i > 0 {
        OccursShift(s, t, i - 1);
        ContainsIff(s[1..], t);
      } else {
        assert t <= s;
      }
    }
  }

  /** Dropping the first character moves every occurrence one to the left. */
  lemma OccursShift(s: String, t: String, i: nat)
    requires |s| > 0
    ensures OccursAt(s[1..], t, i) <==> OccursAt(s, t, i + 1)
  {
    if i + |t| <= |s[1..]| {
      assert s[1..][i..i + |t|] == s[i + 1..i + 1 + |t|];
    }
  }

  /** An occurrence at a known index is containment. */
  lemma ContainsAt(s: String, t: String, i: nat)
    requires OccursAt(s, t, i)
    ensures Contains(s, t)
  {
    ContainsIff(s, t);
  }

  /** A string that contains `t` contains every prefix of `t`; so anything
      holding "USDT" or "USDC" also holds "USD". */
  lemma {:induction false} ContainsPrefix(s: String, t: String, u: String)
    requires u <= t
    requires Contains(s, t)
    ensures Contains(s, u)
    decreases |s|
  {
    if !(t <= s) {
      ContainsPrefix(s[1..], t, u);
    }
  }

  /** A one-character string occurs exactly when that character does. */
  lemma {:induction false} ContainsChar(s: String, c: char)
    ensures Contains(s, [c]) <==> c in s
    decreases |s|
  {
    if s != [] {
      ContainsChar(s[1..], c);
      assert s == [s[0]] + s[1..];
    }
  }

  /** A character of an occurring string is a character of the string. */
  lemma CharOfContained(s: String, t: String, c: char)
    requires Contains(s, t) && c in t
    ensures c in s
  {
    ContainsIff(s, t);
    var i: nat :| OccursAt(s, t, i);
    var k :| 0 <= k < |t| && t[k] == c;
    assert s[i + k] == t[k];
  }

  /** A string lacking a character of `t` does not contain `t`. */
  lemma {:induction false} AbsentCharNotContained(s: String, t: String, c: char)
    requires c !in s && c in t
    ensures !Contains(s, t)
    decreases |s|
  {
    if s != [] {
      AbsentCharNotContained(s[1..], t, c);
    }
    var k :| 0 <= k < |t| && t[k] == c;
    if |t| <= |s| {
      assert s[k] != c;
      assert s[..|t|][k] != t[k];
    }
  }

  /** `t` cannot occur in `s` when, for some offset `k` into `t`, the
      character `t[k]` is missing from `s` from index `k` on. */
  lemma AbsentAtOffset(s: String, t: String, k: nat)
    requires k < |t| && k <= |s| && t[k] !in s[k..]
    ensures !Contains(s, t)
  {
    forall i: nat
      ensures !OccursAt(s, t, i)
    {
      if i + |t| <= |s| {
        assert s[k..][i] == s[i + k];
        assert s[i..i + |t|][k] != t[k];
      }
    }
    ContainsIff(s, t);
  }

  /** An occurrence of `t` can neither cross a separator `c` that `t` lacks
      nor start after it when the first character of `t` is missing there,
      so `a + [c] + b` holds `t` exactly when `a` does. */
  lemma ContainsBeforeSeparator(a: String, c: char, b: String, t: String)
    requires |t| > 0 && c !in t && t[0] !in b
    ensures Contains(a + [c] + b, t) <==> Contains(a, t)
  {
    var s := a + [c] + b;
    forall i: nat | OccursAt(s, t, i)
      ensures OccursAt(a, t, i)
    {
      forall j | i <= j < i + |t|
        ensures s[j] != c
      {
        assert s[j] == t[j - i];
      }
      forall j | |a| < j < |s|
        ensures s[j] in b
      {
        assert s[j] == b[j - |a| - 1];
      }
      assert s[|a|] == c;
      assert s[i] == t[0] && t[0] !in b;
      assert i + |t| <= |a|;
      assert a[i..i + |t|] == s[i..i + |t|];
    }
    forall i: nat | OccursAt(a, t, i)
      ensures OccursAt(s, t, i)
    {
      assert a[i..i + |t|] == s[i..i + |t|];
    }
    ContainsIff(s, t);
    ContainsIff(a, t);
  }

  /** A string free of `u` is free of every extension `t` of `u`. */
  lemma {:induction false} NotContainsExtension(s: String, u: String, t: String)
    requires u <= t && !Contains(s, u)
    ensures !Contains(s, t)
    decreases |s|
  {
    if s != [] {
      NotContainsExtension(s[1..], u, t);
    }
  }

  /** Number of occurrences of the character `c` in `s`. */
  function Count(s: String, c: char): (n: nat)
    ensures n == 0 <==> c !in s
    ensures n <= |s|
    decreases |s|
  {
    if s == [] then 0 else (if s[0] == c then 1 else 0) + Count(s[1..], c)
  }

  /** Count adds up over concatenation. */
  lemma {:induction false} CountConcat(a: String, b: String, c: char)
    ensures Count(a + b, c) == Count(a, c) + Count(b, c)
    decreases |a|
  {
    if a != [] {
      assert (a + b)[1..] == a[1..] + b;
      CountConcat(a[1..], b, c);
    } else {
      assert a + b == b;
    }
  }

  /** Python's `s.split(c)`: the pieces between the occurrences of `c`,
      including the (possibly empty) first and last ones. */
  function Split(s: String, c: char): (parts: seq<String>)
    ensures |parts| == Count(s, c) + 1
    ensures forall k :: 0 <= k < |parts| ==> c !in parts[k]
    ensures c !in s ==> parts == [s]
    decreases |s|
  {
    if s == [] then [[]]
    else
      var rest := Split(s[1..], c);
      if s[0] == c then [[]] + rest
      else
        assert s == [s[0]] + s[1..];
        [[s[0]] + rest[0]] + rest[1..]
  }

  /** Python's `str(c).join(parts)`. */
  function Join(parts: seq<String>, c: char): String
  {
    if |parts| == 0 then []
    else if |parts| == 1 then parts[0]
    else parts[0] + [c] + Join(parts[1..], c)
  }

  /** Joining the pieces of a split gives back the string. */
  lemma {:induction false} JoinSplit(s: String, c: char)
    ensures Join(Split(s, c), c) == s
    decreases |s|
  {
    if s != [] {
      var rest := Split(s[1..], c);
      JoinSplit(s[1..], c);
      if s[0] == c {
        assert Split(s, c)[1..] == rest;
      } else {
        JoinExtendHead(s[0], rest, c);
      }
      assert s == [s[0]] + s[1..];
    }
  }

  /** Putting a character in front of the first piece puts it in front of
      the join. */
  lemma JoinExtendHead(x: char, parts: seq<String>, c: char)
    requires |parts| >= 1
    ensures Join([[x] + parts[0]] + parts[1..], c) == [x] + Join(parts, c)
  {
    var ext := [[x] + parts[0]] + parts[1..];
    assert ext[1..] == parts[1..];
    if |parts| > 1 {
      var tail := Join(parts[1..], c);
      assert Join(ext, c) == ([x] + parts[0]) + [c] + tail;
      assert ([x] + parts[0]) + [c] + tail == [x] + (parts[0] + [c] + tail);
    }
  }

  /** Splitting at a first piece free of `c`. */
  lemma {:induction false} SplitConcat(a: String, c: char, t: String)
    requires c !in a
    ensures Split(a + [c] + t, c) == [a] + Split(t, c)
    decreases |a|
  {
    var s := a + [c] + t;
    if a == [] {
      assert s[1..] == t;
    } else {
      assert s[1..] == a[1..] + [c] + t;
      SplitConcat(a[1..], c, t);
      assert [a[0]] + a[1..] == a;
    }
  }

  /** Splitting "a_b_rest" on '_' when no piece holds '_'. */
  lemma SplitThree(a: String, b: String, rest: String, c: char)
    requires c !in a && c !in b && c !in rest
    ensures Split(a + [c] + b + [c] + rest, c) == [a, b, rest]
  {
    var tail := b + [c] + rest;
    assert a + [c] + b + [c] + rest == a + [c] + tail;
    SplitConcat(b, c, rest);
    assert Split(tail, c) == [b] + [rest];
    SplitConcat(a, c, tail);
    assert [a] + ([b] + [rest]) == [a, b, rest];
  }

  /** Splitting a join of `c`-free pieces gives back the pieces. */
  lemma {:induction false} SplitJoin(parts: seq<String>, c: char)
    requires |parts| >= 1
    requires forall k :: 0 <= k < |parts| ==> c !in parts[k]
    ensures Split(Join(parts, c), c) == parts
    decreases |parts|
  {
    if |parts| > 1 {
      SplitJoin(parts[1..], c);
      SplitConcat(parts[0], c, Join(parts[1..], c));
      assert [parts[0]] + parts[1..] == parts;
    }
  }

  /** The first piece is the text before the first `c` (all of `s` when
      there is none). */
  lemma {:induction false} FirstPiece(s: String, c: char)
    ensures Split(s, c)[0] <= s
    ensures c in s ==> |Split(s, c)[0]| < |s| && s[|Split(s, c)[0]|] == c
    decreases |s|
  {
    if s != [] && s[0] != c {
      FirstPiece(s[1..], c);
      assert s == [s[0]] + s[1..];
    }
  }

  /** A `c`-free prefix followed by `c` or by the end is the first piece. */
  lemma FirstPieceIs(s: String, c: char, q: String)
    requires q <= s && c !in q
    requires |q| < |s| ==> s[|q|] == c
    ensures Split(s, c)[0] == q
  {
    if |q| == |s| {
      assert s == q;
    } else {
      assert s == q + [c] + s[|q| + 1..];
      SplitConcat(q, c, s[|q| + 1..]);
    }
  }

  /** The text after the last `c` is the last piece. */
  lemma {:induction false} LastPieceAfter(pre: String, c: char, code: String)
    requires c !in code
    ensures var parts := Split(pre + [c] + code, c); |parts| >= 2 && parts[|parts| - 1] == code
    decreases |pre|
  {
    var s := pre + [c] + code;
    if pre == [] {
      SplitConcat(pre, c, code);
    } else {
      assert s[1..] == pre[1..] + [c] + code;
      LastPieceAfter(pre[1..], c, code);
    }
  }

  /** Python's `s.replace(pat, rep)`: occurrences of `pat` are replaced
      left to right without overlap; an empty `pat` matches before every
      character and at the end. */
  function Replace(s: String, pat: String, rep: String): (r: String)
    ensures pat != [] && !Contains(s, pat) ==> r == s
    ensures pat != [] && rep == [] ==> |r| <= |s|
    ensures pat != [] && rep == [] && Contains(s, pat) ==> |r| < |s|
    decreases |s|
  {
    if pat == [] then
      (if s == [] then rep else rep + [s[0]] + Replace(s[1..], pat, rep))
    else if s == [] then []
    else if pat <= s then rep + Replace(s[|pat|..], pat, rep)
    else [s[0]] + Replace(s[1..], pat, rep)
  }

  /** Replacing a pattern by itself changes nothing. */
  lemma {:induction false} ReplaceBySelf(s: String, pat: String)
    requires pat != []
    ensures Replace(s, pat, pat) == s
    decreases |s|
  {
    if s != [] {
      if pat <= s {
        ReplaceBySelf(s[|pat|..], pat);
        assert s == pat + s[|pat|..];
      } else {
        ReplaceBySelf(s[1..], pat);
        assert s == [s[0]] + s[1..];
      }
    }
  }

  /** Python's `ch.upper()` on the ASCII letters; every other character is
      left alone. */
  function UpperChar(ch: char): char
  {
    if 'a' <= ch <= 'z' then (ch as int - 32) as char else ch
  }

  /** Python's `s.upper()`, letter by letter. */
  function Upper(s: String): (r: String)
    ensures |r| == |s|
    ensures forall k :: 0 <= k < |s| ==> r[k] == UpperChar(s[k])
    ensures forall k :: 0 <= k < |r| ==> !('a' <= r[k] <= 'z')
    decreases |s|
  {
    if s == [] then [] else [UpperChar(s[0])] + Upper(s[1..])
  }

  /** A string without lower-case ASCII letters is its own upper case. */
  lemma UpperOfUpperCase(s: String)
    requires forall k :: 0 <= k < |s| ==> !('a' <= s[k] <= 'z')
    ensures Upper(s) == s
  {
  }

  /** Upper-casing twice is upper-casing once. */
  lemma UpperIdempotent(s: String)
    ensures Upper(Upper(s)) == Upper(s)
  {
    var u := Upper(s);
    assert forall k :: 0 <= k < |u| ==> Upper(u)[k] == u[k];
  }

  /** Upper-casing leaves a character it does not map onto alone: a string
      free of `c` stays free of `c` when `c` is no lower-case letter and its
      lower-case partner is absent too. */
  lemma UpperKeepsAbsent(s: String, c: char)
    requires c !in s
    requires !('a' <= c <= 'z') && !('A' <= c <= 'Z')
    ensures c !in Upper(s)
  {
    forall k | 0 <= k < |s|
      ensures Upper(s)[k] != c
    {
      assert s[k] != c;
    }
  }
}
