/** String primitives the handler relies on, with Go's semantics: prefix and
    substring tests, `strings.ReplaceAll`, the `+=` accumulation of a message,
    and the `%d` rendering of a non-negative integer. */
module Strings {

  datatype Option<+T> = None | Some(value: T)

  /** `p` is a prefix of `s` (Go's strings.HasPrefix). */
  predicate StartsWith(s: string, p: string) {
    |p| <= |s| && s[..|p|] == p
  }

  /** `p` is a suffix of `s` (Go's strings.HasSuffix). */
  predicate EndsWith(s: string, p: string) {
    |p| <= |s| && s[|s| - |p|..] == p
  }

  /** `p` occurs in `s` as a contiguous piece (Go's strings.Contains). */
  predicate Contains(s: string, p: string)
    decreases |s|
  {
    StartsWith(s, p) || (|s| > 0 && Contains(s[1..], p))
  }

  /** Go's ReplaceAll for an empty pattern: `rep` before every character and once more at the end. */
  function Interleave(s: string, rep: string): string
    decreases |s|
  {
    if |s| == 0 then rep else rep + [s[0]] + Interleave(s[1..], rep)
  }

  /** Go's strings.ReplaceAll(s, pat, rep): scans `s` from the left and replaces
      each non-overlapping occurrence of `pat` by `rep`. */
  function ReplaceAll(s: string, pat: string, rep: string): (r: string)
    ensures |pat| > 0 && !Contains(s, pat) ==> r == s
    decreases |s|
  {
    if |pat| == 0 then Interleave(s, rep)
    else if StartsWith(s, pat) then rep + ReplaceAll(s[|pat|..], pat, rep)
    else if |s| == 0 then []
    else [s[0]] + ReplaceAll(s[1..], pat, rep)
  }

  /** Every character of `s` except `c`, in order: the reference meaning of
      deleting a one-character pattern. */
  function Without(s: string, c: char): (r: string)
    ensures c !in r
    ensures forall x | x in r :: x in s
    decreases |s|
  {
    if |s| == 0 then []
    else (if s[0] == c then [] else [s[0]]) + Without(s[1..], c)
  }

  /** Each line followed by '\n', one after the other. */
  function Joined(lines: seq<string>): string
    decreases |lines|
  {
    if |lines| == 0 then "" else lines[0] + "\n" + Joined(lines[1..])
  }

  /** The lines of `s`: the pieces between '\n' characters, the last one
      being what follows the final '\n' (Go's strings.Split(s, "\n")). */
  function Lines(s: string): (r: seq<string>)
    ensures |r| > 0
    decreases |s|
  {
    if |s| == 0 then [""]
    else if s[0] == '\n' then [""] + Lines(s[1..])
    else
      var rest := Lines(s[1..]);
      [[s[0]] + rest[0]] + rest[1..]
  }

  function DigitChar(d: nat): char
    requires d < 10
  {
    "0123456789"[d]
  }

  predicate IsDigit(c: char) {
    '0' <= c <= '9'
  }

  /** Go's `%d` for a non-negative integer: decimal digits, no sign, no leading zero. */
  function NatToString(n: nat): (r: string)
    ensures |r| > 0
    ensures forall c | c in r :: IsDigit(c)
    ensures n > 0 ==> r[0] != '0'
    decreases n
  {
    if n < 10 then [DigitChar(n)] else NatToString(n / 10) + [DigitChar(n % 10)]
  }

  /** Reads back a string of decimal digits. */
  function ParseDecimal(s: string): nat
    requires forall c | c in s :: IsDigit(c)
    decreases |s|
  {
    if |s| == 0 then 0
    else
      var last := s[|s| - 1];
      assert last in s && IsDigit(last);
      ParseDecimal(s[..|s| - 1]) * 10 + (last as int - '0' as int)
  }

  // ---------------------------------------------------------------------------
  // Lemmas about ReplaceAll

  /** With a non-empty pattern, ReplaceAll never lengthens the string when the
      replacement is no longer than the pattern, and strictly shortens it when
      the replacement is shorter and the pattern occurs. */
  lemma {:induction false} ReplaceAllLength(s: string, pat: string, rep: string)
    requires |pat| > 0 && |rep| <= |pat|
    ensures |ReplaceAll(s, pat, rep)| <= |s|
    ensures Contains(s, pat) && |rep| < |pat| ==> |ReplaceAll(s, pat, rep)| < |s|
    decreases |s|
  {
    if StartsWith(s, pat) {
      ReplaceAllLength(s[|pat|..], pat, rep);
    } else if |s| > 0 {
      ReplaceAllLength(s[1..], pat, rep);
    }
  }

  /** A character that does not occur in the pattern splits the replacement:
      no occurrence can straddle it. */
  lemma {:induction false} ReplaceAllAround(a: string, c: char, b: string, pat: string, rep: string)
    requires |pat| > 0 && c !in pat
    ensures ReplaceAll(a + [c] + b, pat, rep) == ReplaceAll(a, pat, rep) + [c] + ReplaceAll(b, pat, rep)
    decreases |a|
  {
    var s := a + [c] + b;
    StartsWithAround(a, c, b, pat);
    if |a| == 0 {
      assert s[1..] == b;
    } else if StartsWith(s, pat) {
      assert s[|pat|..] == a[|pat|..] + [c] + b;
      ReplaceAllAround(a[|pat|..], c, b, pat, rep);
    } else {
      assert s[1..] == a[1..] + [c] + b;
      ReplaceAllAround(a[1..], c, b, pat, rep);
    }
  }

  /** An occurrence at the front cannot reach past a character the pattern lacks. */
  lemma StartsWithAround(a: string, c: char, b: string, pat: string)
    requires c !in pat
    ensures StartsWith(a + [c] + b, pat) <==> StartsWith(a, pat)
  {
    var s := a + [c] + b;
    StartsWithChars(s, pat);
    StartsWithChars(a, pat);
    assert s[|a|] == c;
    assert forall j | 0 <= j < |a| :: s[j] == a[j];
  }

  /** Deleting a one-character pattern keeps exactly the other characters. */
  lemma {:induction false} ReplaceAllDeletes(s: string, c: char)
    ensures ReplaceAll(s, [c], "") == Without(s, c)
    decreases |s|
  {
    if |s| > 0 {
      ReplaceAllDeletes(s[1..], c);
      if s[0] == c {
        assert StartsWith(s, [c]);
      } else {
        assert !StartsWith(s, [c]);
      }
    }
  }

  /** A string that starts with the pattern loses that occurrence first. */
  lemma ReplaceAllLeading(pat: string, rest: string, rep: string)
    requires |pat| > 0
    ensures ReplaceAll(pat + rest, pat, rep) == rep + ReplaceAll(rest, pat, rep)
  {
    assert StartsWith(pat + rest, pat);
    assert (pat + rest)[|pat|..] == rest;
  }

  // ---------------------------------------------------------------------------
  // Lemmas about Contains and Joined

  /** The prefix test, character by character. */
  lemma StartsWithChars(s: string, p: string)
    ensures StartsWith(s, p) <==> |p| <= |s| && forall j | 0 <= j < |p| :: s[j] == p[j]
  {
    if |p| <= |s| && forall j | 0 <= j < |p| :: s[j] == p[j] {
      assert s[..|p|] == p;
    }
  }

  /** Dropping characters from the front cannot create an occurrence. */
  lemma {:induction false} ContainsSuffix(s: string, p: string, n: nat)
    requires n <= |s|
    ensures Contains(s[n..], p) ==> Contains(s, p)
    decreases n
  {
    if n > 0 {
      ContainsSuffix(s[1..], p, n - 1);
      assert s[1..][n - 1..] == s[n..];
    }
  }

  /** Every character of an occurrence is a character of the string, as often. */
  lemma {:induction false} ContainsMultiset(s: string, p: string)
    ensures Contains(s, p) ==> multiset(p) <= multiset(s)
    decreases |s|
  {
    if StartsWith(s, p) {
      assert s == p + s[|p|..];
    } else if |s| > 0 {
      ContainsMultiset(s[1..], p);
      assert s == [s[0]] + s[1..];
    }
  }

  /** A pattern with a character the text lacks does not occur in it. */
  lemma NoCharNoContains(s: string, p: string, i: nat)
    requires i < |p| && p[i] !in s
    ensures !Contains(s, p)
  {
    assert p[i] in multiset(p) && p[i] !in multiset(s);
    if Contains(s, p) {
      ContainsMultiset(s, p);
    }
  }

  /** Appending one more line to the joined lines. */
  lemma {:induction false} JoinedSnoc(lines: seq<string>, line: string)
    ensures Joined(lines + [line]) == Joined(lines) + line + "\n"
    decreases |lines|
  {
    if |lines| == 0 {
      assert lines + [line] == [line];
      assert [line][1..] == [];
    } else {
      assert (lines + [line])[0] == lines[0];
      assert (lines + [line])[1..] == lines[1..] + [line];
      JoinedSnoc(lines[1..], line);
    }
  }

  // ---------------------------------------------------------------------------
  // Lines

  /** A line ended by '\n' comes off the front of the split. */
  lemma {:induction false} LinesCons(line: string, rest: string)
    requires '\n' !in line
    ensures Lines(line + "\n" + rest) == [line] + Lines(rest)
    decreases |line|
  {
    var s := line + "\n" + rest;
    if |line| == 0 {
      assert s == "\n" + rest;
      assert s[1..] == rest;
    } else {
      assert s[0] == line[0];
      assert s[1..] == line[1..] + "\n" + rest;
      assert line[0] in line;
      assert forall c | c in line[1..] :: c in line;
      LinesCons(line[1..], rest);
      assert [line[0]] + line[1..] == line;
    }
  }

  /** Successive `+=` regrouped from the right, as the line split reads them. */
  lemma RegroupRight(a: string, b: string, c: string, d: string, e: string, f: string)
    ensures a + b + c + d + e + f == a + (b + (c + (d + (e + f))))
  {
    assert a + b + c + d + e + f == a + b + c + d + (e + f);
    assert a + b + c + d + (e + f) == a + b + c + (d + (e + f));
    assert a + b + c + (d + (e + f)) == a + b + (c + (d + (e + f)));
  }

  /** Two lines ended by '\n' come off the front of the split. */
  lemma LinesCons2(a: string, b: string, rest: string)
    requires '\n' !in a && '\n' !in b
    ensures Lines(a + "\n" + (b + "\n" + rest)) == [a, b] + Lines(rest)
  {
    LinesCons(b, rest);
    LinesCons(a, b + "\n" + rest);
  }

  /** A string without '\n' is a single line. */
  lemma {:induction false} LinesSingle(line: string)
    requires '\n' !in line
    ensures Lines(line) == [line]
    decreases |line|
  {
    if |line| > 0 {
      assert line[0] in line;
      assert forall c | c in line[1..] :: c in line;
      LinesSingle(line[1..]);
      assert [line[0]] + line[1..] == line;
    }
  }

  /** Joined lines, then a string: the split yields those lines, then the
      lines of the string. */
  lemma {:induction false} LinesJoined(lines: seq<string>, rest: string)
    requires forall i | 0 <= i < |lines| :: '\n' !in lines[i]
    ensures Lines(Joined(lines) + rest) == lines + Lines(rest)
    decreases |lines|
  {
    if |lines| == 0 {
      assert Joined(lines) + rest == rest;
    } else {
      var tail := lines[1..];
      assert Joined(lines) + rest == lines[0] + "\n" + (Joined(tail) + rest);
      assert '\n' !in lines[0];
      LinesCons(lines[0], Joined(tail) + rest);
      assert forall i | 0 <= i < |tail| :: tail[i] == lines[i + 1];
      LinesJoined(tail, rest);
      assert lines == [lines[0]] + tail;
    }
  }

  // ---------------------------------------------------------------------------
  // Decimal rendering

  lemma {:induction false} ParseNatToString(n: nat)
    ensures ParseDecimal(NatToString(n)) == n
    decreases n
  {
    var s := NatToString(n);
    if n >= 10 {
      ParseNatToString(n / 10);
      assert s[..|s| - 1] == NatToString(n / 10);
    }
  }
}
