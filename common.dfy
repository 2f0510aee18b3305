/** Nullable values and the small string operations the converter relies on
    (java.lang.String and commons-lang StringUtils behaviour, restated). */
module Common {

  /** A Java reference that may be null. */
  datatype Option<+T> = None | Some(value: T)

  predicate StartsWith(s: string, prefix: string) {
    |prefix| <= |s| && s[..|prefix|] == prefix
  }

  /** String.endsWith */
  predicate EndsWith(s: string, suffix: string) {
    |suffix| <= |s| && s[|s| - |suffix|..] == suffix
  }

  /** `t` occurs in `s` starting at index `i`. */
  predicate OccursAt(s: string, t: string, i: int) {
    0 <= i && i + |t| <= |s| && s[i..i + |t|] == t
  }

  /** String.contains, as a left-to-right scan. */
  function Contains(s: string, t: string): (r: bool)
    ensures r <==> exists i :: OccursAt(s, t, i)
    decreases |s|
  {
    if |s| < |t| then
      assert forall i :: !OccursAt(s, t, i);
      false
    else if s[..|t|] == t then
      assert OccursAt(s, t, 0);
      true
    else
      var rest := Contains(s[1..], t);
      assert forall i :: OccursAt(s[1..], t, i) <==> OccursAt(s, t, i + 1) by {
        forall i ensures OccursAt(s[1..], t, i) <==> OccursAt(s, t, i + 1) {
          if 0 <= i && i + |t| <= |s[1..]| {
            assert s[1..][i..i + |t|] == s[i + 1..i + 1 + |t|];
          }
        }
      }
      assert !OccursAt(s, t, 0);
      assert rest ==> exists i :: OccursAt(s, t, i) by {
        if rest {
          var i :| OccursAt(s[1..], t, i);
          assert OccursAt(s, t, i + 1);
        }
      }
      assert (exists i :: OccursAt(s, t, i)) ==> rest by {
        if exists i :: OccursAt(s, t, i) {
          var i :| OccursAt(s, t, i);
          assert i != 0;
          assert OccursAt(s[1..], t, i - 1);
        }
      }
      rest
  }

  /** Character.toLowerCase restricted to ASCII letters. */
  function LowerChar(c: char): char {
    if 'A' <= c <= 'Z' then (c as int + 32) as char else c
  }

  /** String.toLowerCase restricted to ASCII letters. */
  function ToLower(s: string): (r: string)
    ensures |r| == |s|
    ensures forall i :: 0 <= i < |s| ==> r[i] == LowerChar(s[i])
  {
    seq(|s|, i requires 0 <= i < |s| => LowerChar(s[i]))
  }

  /** Lower-casing a string lower-cases each part of it. */
  lemma ToLowerAppend(a: string, b: string)
    ensures ToLower(a + b) == ToLower(a) + ToLower(b)
  {
  }

  /** Lower-casing keeps every character that is not an upper-case letter,
      and produces none. */
  lemma LowerCharKeepsOthers(c: char)
    ensures !('A' <= LowerChar(c) <= 'Z')
    ensures !('A' <= c <= 'Z') ==> LowerChar(c) == c
    ensures 'A' <= c <= 'Z' ==> 'a' <= LowerChar(c) <= 'z'
  {
  }

  /** Character.isWhitespace: the ASCII controls 9-13 and 28-31 and the
      Unicode space separators other than the non-breaking ones. */
  predicate IsJavaWhitespace(c: char) {
    var n := c as int;
    n == 0x20 || 0x09 <= n <= 0x0D || 0x1C <= n <= 0x1F || n == 0x1680
    || 0x2000 <= n <= 0x2006 || 0x2008 <= n <= 0x200A
    || n == 0x2028 || n == 0x2029 || n == 0x205F || n == 0x3000
  }

  /** String.isBlank: empty or whitespace only. */
  predicate IsBlank(s: string) {
    forall i :: 0 <= i < |s| ==> IsJavaWhitespace(s[i])
  }

  /** The characters of `s` other than `sep`, in order. */
  function Without(s: string, sep: char): (r: string)
    ensures sep !in r
  {
    if s == [] then [] else (if s[0] == sep then [] else [s[0]]) + Without(s[1..], sep)
  }

  function Concat(parts: seq<string>): string {
    if parts == [] then [] else parts[0] + Concat(parts[1..])
  }

  lemma {:induction false} ConcatAppend(a: seq<string>, b: seq<string>)
    ensures Concat(a + b) == Concat(a) + Concat(b)
  {
    if a == [] {
      assert a + b == b;
    } else {
      assert (a + b)[1..] == a[1..] + b;
      ConcatAppend(a[1..], b);
    }
  }

  /** StringUtils.split(str, separatorChar): the maximal runs of characters
      other than the separator; adjacent separators count as one and no
      empty token is produced. */
  function Split(s: string, sep: char): (parts: seq<string>)
    ensures forall k :: 0 <= k < |parts| ==> parts[k] != [] && sep !in parts[k]
  {
    SplitFrom(s, sep, [])
  }

  /** Splitting with `token` as the characters read since the last separator. */
  function SplitFrom(s: string, sep: char, token: string): (parts: seq<string>)
    requires sep !in token
    ensures forall k :: 0 <= k < |parts| ==> parts[k] != [] && sep !in parts[k]
    decreases |s|
  {
    var flushed := if token == [] then [] else [token];
    if s == [] then flushed
    else if s[0] == sep then flushed + SplitFrom(s[1..], sep, [])
    else SplitFrom(s[1..], sep, token + [s[0]])
  }

  /** Splitting loses exactly the separators: the tokens, joined, are the
      input with every separator removed. */
  lemma {:induction false} SplitKeepsOtherCharacters(s: string, sep: char)
    ensures Concat(Split(s, sep)) == Without(s, sep)
  {
    SplitFromKeeps(s, sep, []);
  }

  lemma {:induction false} SplitFromKeeps(s: string, sep: char, token: string)
    requires sep !in token
    ensures Concat(SplitFrom(s, sep, token)) == token + Without(s, sep)
    decreases |s|
  {
    var flushed: seq<string> := if token == [] then [] else [token];
    assert Concat(flushed) == token by {
      if token != [] { assert flushed[1..] == []; }
    }
    if s == [] {
    } else if s[0] == sep {
      SplitFromKeeps(s[1..], sep, []);
      ConcatAppend(flushed, SplitFrom(s[1..], sep, []));
    } else {
      SplitFromKeeps(s[1..], sep, token + [s[0]]);
    }
  }

  /** The tokens joined with one separator between neighbours. */
  function JoinWith(parts: seq<string>, sep: char): string
    decreases |parts|
  {
    if parts == [] then []
    else if |parts| == 1 then parts[0]
    else parts[0] + [sep] + JoinWith(parts[1..], sep)
  }

  /** `s` with leading and trailing separators dropped and every run of
      separators between other characters collapsed to one. `started` says a
      character other than the separator has been kept; `pending` that a
      separator has been seen after it. */
  function Squeeze(s: string, sep: char, started: bool, pending: bool): string
    decreases |s|
  {
    if s == [] then []
    else if s[0] == sep then Squeeze(s[1..], sep, started, started)
    else (if pending then [sep] else []) + [s[0]] + Squeeze(s[1..], sep, true, false)
  }

  /** The tokens of Split are the maximal runs of characters other than the
      separator: joined back with single separators, they give `s` with
      leading and trailing separators removed and runs of them collapsed. */
  lemma SplitIsMaximalRuns(s: string, sep: char)
    ensures JoinWith(Split(s, sep), sep) == Squeeze(s, sep, false, false)
  {
    SplitFromFresh(s, sep);
  }

  /** Splitting after a separator, with no token under way: the tokens
      exist exactly when a character other than the separator follows. */
  lemma {:induction false} SplitFromFresh(s: string, sep: char)
    ensures SplitFrom(s, sep, []) == [] <==> Squeeze(s, sep, true, true) == []
    ensures JoinWith(SplitFrom(s, sep, []), sep) == Squeeze(s, sep, false, false)
    ensures SplitFrom(s, sep, []) != [] ==>
              [sep] + JoinWith(SplitFrom(s, sep, []), sep) == Squeeze(s, sep, true, true)
    decreases |s|, 1
  {
    if s != [] {
      if s[0] == sep {
        assert SplitFrom(s, sep, []) == SplitFrom(s[1..], sep, []);
        SplitFromFresh(s[1..], sep);
      } else {
        assert [] + [s[0]] == [s[0]];
        assert SplitFrom(s, sep, []) == SplitFrom(s[1..], sep, [s[0]]);
        SplitFromToken(s[1..], sep, [s[0]]);
        assert Squeeze(s, sep, false, false) == [s[0]] + Squeeze(s[1..], sep, true, false);
        assert Squeeze(s, sep, true, true) == [sep] + [s[0]] + Squeeze(s[1..], sep, true, false);
      }
    }
  }

  /** Splitting with a token under way: the token is the first part, and
      joined, the parts are the token followed by the squeezed rest. */
  lemma {:induction false} SplitFromToken(s: string, sep: char, token: string)
    requires token != [] && sep !in token
    ensures SplitFrom(s, sep, token) != []
    ensures JoinWith(SplitFrom(s, sep, token), sep) == token + Squeeze(s, sep, true, false)
    decreases |s|, 0
  {
    if s == [] {
    } else if s[0] == sep {
      var rest := SplitFrom(s[1..], sep, []);
      assert SplitFrom(s, sep, token) == [token] + rest;
      SplitFromFresh(s[1..], sep);
      assert Squeeze(s, sep, true, false) == Squeeze(s[1..], sep, true, true);
      if rest == [] {
        assert JoinWith([token] + rest, sep) == token;
      } else {
        assert ([token] + rest)[1..] == rest;
        assert JoinWith([token] + rest, sep) == token + [sep] + JoinWith(rest, sep);
      }
    } else {
      assert SplitFrom(s, sep, token) == SplitFrom(s[1..], sep, token + [s[0]]);
      SplitFromToken(s[1..], sep, token + [s[0]]);
      assert Squeeze(s, sep, true, false) == [s[0]] + Squeeze(s[1..], sep, true, false);
      assert (token + [s[0]]) + Squeeze(s[1..], sep, true, false) == token + ([s[0]] + Squeeze(s[1..], sep, true, false));
    }
  }

  function DigitChar(d: int): char
    requires 0 <= d < 10
  {
    "0123456789"[d]
  }

  /** Decimal notation of a natural number, as Long.toString prints it. */
  function NatToString(n: nat): (r: string)
    ensures r != [] && forall i :: 0 <= i < |r| ==> '0' <= r[i] <= '9'
  {
    if n < 10 then [DigitChar(n)] else NatToString(n / 10) + [DigitChar(n % 10)]
  }

  /** Decimal notation of an integer, with a leading '-' when negative. */
  function IntToString(n: int): string {
    if n < 0 then "-" + NatToString(-n) else NatToString(n)
  }
}
