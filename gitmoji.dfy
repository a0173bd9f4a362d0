/** Shortcode tables and the substitution pass of `trans2Emoji`
    (gitlab.go:85-90), for any table whose entries are well formed.

    Go iterates a map in an unspecified order, so the pass is defined over an
    explicit sequence of entries: the laws proved here hold for every
    arrangement of a well-formed table; the result itself does not (see
    GitEmojiMap.OrderMatters). */
module Gitmoji {
  import opened Strings

  /** One table entry: the shortcode `:name:` and the emoji that replaces it. */
  datatype Entry = Entry(name: string, emoji: string)

  function Key(e: Entry): string {
    ":" + e.name + ":"
  }

  predicate IsNameChar(c: char) {
    'a' <= c <= 'z' || '0' <= c <= '9' || c == '_'
  }

  /** The characters a shortcode is written with. */
  predicate IsShortcodeChar(c: char) {
    c == ':' || IsNameChar(c)
  }

  /** A shortcode: a non-empty name between two colons. */
  predicate IsShortcode(k: string) {
    |k| >= 3 && k[0] == ':' && k[|k| - 1] == ':' && forall i | 0 < i < |k| - 1 :: IsNameChar(k[i])
  }

  /** A replacement value: non-empty and written without any shortcode character. */
  predicate IsEmojiValue(v: string) {
    |v| > 0 && forall c | c in v :: !IsShortcodeChar(c)
  }

  /** A table name: non-empty and written with name characters only. */
  predicate IsName(n: string) {
    |n| > 0 && forall i | 0 <= i < |n| :: IsNameChar(n[i])
  }

  /** What every GitEmojiMap entry satisfies, and all the laws below rely on. */
  predicate WellFormedEntry(e: Entry) {
    IsName(e.name) && IsEmojiValue(e.emoji) && |e.emoji| < |e.name| + 2
  }

  predicate WellFormed(table: seq<Entry>) {
    forall e | e in table :: WellFormedEntry(e)
  }

  /** A table row, checked where it is written. Lengths count code points, so
      an emoji has fewer characters than its key. */
  function Row(name: string, emoji: string): (e: Entry)
    requires IsName(name) && IsEmojiValue(emoji) && |emoji| < |name| + 2
    ensures e.name == name && e.emoji == emoji
    ensures WellFormedEntry(e)
  {
    Entry(name, emoji)
  }

  /** trans2Emoji's result for a given iteration order: one whole-string
      ReplaceAll per entry, in that order. */
  function Substitute(table: seq<Entry>, s: string): string
    decreases |table|
  {
    if |table| == 0 then s
    else Substitute(table[1..], ReplaceAll(s, Key(table[0]), table[0].emoji))
  }

  // ---------------------------------------------------------------------------
  // The table

  lemma WellFormedAppend(a: seq<Entry>, b: seq<Entry>)
    requires WellFormed(a) && WellFormed(b)
    ensures WellFormed(a + b)
  {
  }

  // ---------------------------------------------------------------------------
  // One ReplaceAll with a shortcode key

  lemma KeyIsShortcode(e: Entry)
    requires WellFormedEntry(e)
    ensures IsShortcode(Key(e))
  {
    var k := Key(e);
    forall i | 0 < i < |k| - 1 ensures IsNameChar(k[i]) {
      assert k[i] == e.name[i - 1];
    }
  }

  lemma ShortcodeAlphabet(k: string)
    requires IsShortcode(k)
    ensures forall c | c in k :: IsShortcodeChar(c)
    ensures forall c | c in k[1..] :: IsShortcodeChar(c)
  {
    assert forall i | 0 <= i < |k| :: IsShortcodeChar(k[i]);
    assert forall c | c in k[1..] :: c in k;
  }

  lemma StartsWithCons(c: char, rest: string, p: string)
    requires |p| > 0
    ensures StartsWith([c] + rest, p) <==> c == p[0] && StartsWith(rest, p[1..])
  {
    StartsWithChars([c] + rest, p);
    StartsWithChars(rest, p[1..]);
    assert forall j | 0 < j < |p| && j <= |rest| :: ([c] + rest)[j] == rest[j - 1];
    if c == p[0] && StartsWith(rest, p[1..]) {
      assert forall j | 1 <= j < |p| :: rest[j - 1] == p[j];
    }
  }

  /** No shortcode occurrence can begin inside an emoji value. */
  lemma {:induction false} ContainsAfterEmoji(v: string, t: string, k: string)
    requires forall c | c in v :: c != ':'
    requires IsShortcode(k)
    ensures Contains(v + t, k) <==> Contains(t, k)
    decreases |v|
  {
    if |v| > 0 {
      assert v[0] in v;
      StartsWithCons(v[0], v[1..] + t, k);
      assert v + t == [v[0]] + (v[1..] + t);
      assert (v + t)[1..] == v[1..] + t;
      assert forall c | c in v[1..] :: c in v;
      ContainsAfterEmoji(v[1..], t, k);
    } else {
      assert v + t == t;
    }
  }

  /** A prefix written in the shortcode alphabet that the result of a
      replacement starts with was already there before it. */
  lemma {:induction false} PrefixComesFromInput(t: string, k: string, v: string, w: string)
    requires IsShortcode(k) && IsEmojiValue(v)
    requires forall c | c in w :: IsShortcodeChar(c)
    ensures StartsWith(ReplaceAll(t, k, v), w) ==> StartsWith(t, w)
    decreases |t|
  {
    var r := ReplaceAll(t, k, v);
    if |w| > 0 && StartsWith(r, w) {
      assert w[0] in w && v[0] in v;
      assert r[0] == w[0];
      assert !StartsWith(t, k);
      assert |t| > 0;
      var r' := ReplaceAll(t[1..], k, v);
      assert r == [t[0]] + r';
      StartsWithCons(t[0], r', w);
      assert forall c | c in w[1..] :: c in w;
      PrefixComesFromInput(t[1..], k, v, w[1..]);
      StartsWithCons(t[0], t[1..], w);
      assert t == [t[0]] + t[1..];
    }
  }

  /** After ReplaceAll with a shortcode key, the key no longer occurs. */
  lemma {:induction false} ReplaceRemovesKey(s: string, k: string, v: string)
    requires IsShortcode(k) && IsEmojiValue(v)
    ensures !Contains(ReplaceAll(s, k, v), k)
    decreases |s|
  {
    if StartsWith(s, k) {
      ReplaceRemovesKey(s[|k|..], k, v);
      ContainsAfterEmoji(v, ReplaceAll(s[|k|..], k, v), k);
    } else if |s| > 0 {
      var r' := ReplaceAll(s[1..], k, v);
      ReplaceRemovesKey(s[1..], k, v);
      ShortcodeAlphabet(k);
      PrefixComesFromInput(s[1..], k, v, k[1..]);
      StartsWithCons(s[0], r', k);
      StartsWithCons(s[0], s[1..], k);
      assert s == [s[0]] + s[1..];
      assert ([s[0]] + r')[1..] == r';
    } else {
      assert !StartsWith([], k);
    }
  }

  /** ReplaceAll with a shortcode key never creates an occurrence of another shortcode. */
  lemma {:induction false} ReplaceKeepsAbsence(s: string, k: string, v: string, k': string)
    requires IsShortcode(k) && IsEmojiValue(v) && IsShortcode(k')
    ensures !Contains(s, k') ==> !Contains(ReplaceAll(s, k, v), k')
    decreases |s|
  {
    if !Contains(s, k') {
      if StartsWith(s, k) {
        ContainsSuffix(s, k', |k|);
        ReplaceKeepsAbsence(s[|k|..], k, v, k');
        ContainsAfterEmoji(v, ReplaceAll(s[|k|..], k, v), k');
      } else if |s| > 0 {
        var r' := ReplaceAll(s[1..], k, v);
        ReplaceKeepsAbsence(s[1..], k, v, k');
        ShortcodeAlphabet(k');
        PrefixComesFromInput(s[1..], k, v, k'[1..]);
        StartsWithCons(s[0], r', k');
        StartsWithCons(s[0], s[1..], k');
        assert s == [s[0]] + s[1..];
        assert ([s[0]] + r')[1..] == r';
      } else {
        assert !StartsWith([], k');
      }
    }
  }

  // ---------------------------------------------------------------------------
  // The whole pass

  lemma WellFormedTail(table: seq<Entry>)
    requires WellFormed(table) && |table| > 0
    ensures WellFormed(table[1..])
    ensures WellFormedEntry(table[0])
  {
    assert forall e | e in table[1..] :: e in table;
  }

  lemma {:induction false} SubstituteKeepsAbsence(table: seq<Entry>, s: string, k: string)
    requires WellFormed(table) && IsShortcode(k)
    ensures !Contains(s, k) ==> !Contains(Substitute(table, s), k)
    decreases |table|
  {
    if |table| > 0 {
      WellFormedTail(table);
      KeyIsShortcode(table[0]);
      var s' := ReplaceAll(s, Key(table[0]), table[0].emoji);
      ReplaceKeepsAbsence(s, Key(table[0]), table[0].emoji, k);
      SubstituteKeepsAbsence(table[1..], s', k);
    }
  }

  /** No key of the table survives the pass. */
  lemma {:induction false} SubstituteRemovesKeys(table: seq<Entry>, s: string)
    requires WellFormed(table)
    ensures forall e | e in table :: !Contains(Substitute(table, s), Key(e))
    decreases |table|
  {
    if |table| > 0 {
      WellFormedTail(table);
      KeyIsShortcode(table[0]);
      var s' := ReplaceAll(s, Key(table[0]), table[0].emoji);
      SubstituteRemovesKeys(table[1..], s');
      ReplaceRemovesKey(s, Key(table[0]), table[0].emoji);
      SubstituteKeepsAbsence(table[1..], s', Key(table[0]));
      assert forall e | e in table :: e == table[0] || e in table[1..];
    }
  }

  lemma {:induction false} SubstituteLength(table: seq<Entry>, s: string)
    requires WellFormed(table)
    ensures |Substitute(table, s)| <= |s|
    decreases |table|
  {
    if |table| > 0 {
      WellFormedTail(table);
      ReplaceAllLength(s, Key(table[0]), table[0].emoji);
      SubstituteLength(table[1..], ReplaceAll(s, Key(table[0]), table[0].emoji));
    }
  }

  /** The pass leaves a string unchanged exactly when no key occurs in it. */
  lemma {:induction false} SubstituteUnchanged(table: seq<Entry>, s: string)
    requires WellFormed(table)
    ensures Substitute(table, s) == s <==> forall e | e in table :: !Contains(s, Key(e))
    decreases |table|
  {
    if |table| > 0 {
      WellFormedTail(table);
      var k, v := Key(table[0]), table[0].emoji;
      var s' := ReplaceAll(s, k, v);
      ReplaceAllLength(s, k, v);
      SubstituteLength(table[1..], s');
      SubstituteUnchanged(table[1..], s');
      assert forall e | e in table :: e == table[0] || e in table[1..];
      if !Contains(s, k) {
        assert s' == s;
      }
    }
  }

  /** trans2Emoji is idempotent: a second pass finds nothing to replace. */
  lemma SubstituteIdempotent(table: seq<Entry>, s: string)
    requires WellFormed(table)
    ensures Substitute(table, Substitute(table, s)) == Substitute(table, s)
  {
    SubstituteRemovesKeys(table, s);
    SubstituteUnchanged(table, Substitute(table, s));
  }

  /** A character outside the shortcode alphabet splits the pass: no key can
      straddle it. */
  lemma {:induction false} SubstituteAround(table: seq<Entry>, a: string, c: char, b: string)
    requires WellFormed(table) && !IsShortcodeChar(c)
    ensures Substitute(table, a + [c] + b) == Substitute(table, a) + [c] + Substitute(table, b)
    decreases |table|
  {
    if |table| > 0 {
      WellFormedTail(table);
      KeyIsShortcode(table[0]);
      var k, v := Key(table[0]), table[0].emoji;
      ShortcodeAlphabet(k);
      ReplaceAllAround(a, c, b, k, v);
      SubstituteAround(table[1..], ReplaceAll(a, k, v), c, ReplaceAll(b, k, v));
    }
  }

  /** The pass keeps a Markdown heading line a heading line: only the name
      and what follows the line can change. */
  lemma SubstituteHeading(table: seq<Entry>, name: string, rest: string)
    requires WellFormed(table)
    ensures Substitute(table, "# " + name + "\n" + rest)
         == "# " + Substitute(table, name) + "\n" + Substitute(table, rest)
  {
    assert "# " + name + "\n" + rest == ("# " + name) + ['\n'] + rest;
    SubstituteAround(table, "# " + name, '\n', rest);
    assert "# " + name == "#" + [' '] + name;
    SubstituteAround(table, "#", ' ', name);
    assert multiset("#")[':'] == 0;
    SubstituteFewColons(table, "#");
  }

  lemma {:induction false} SubstituteEmpty(table: seq<Entry>)
    requires WellFormed(table)
    ensures Substitute(table, "") == ""
    decreases |table|
  {
    if |table| > 0 {
      WellFormedTail(table);
      assert !StartsWith("", Key(table[0]));
      SubstituteEmpty(table[1..]);
    }
  }

  // ---------------------------------------------------------------------------
  // Strings with fewer than two colons

  /** A shortcode holds at least two colons. */
  lemma ShortcodeColons(k: string)
    requires IsShortcode(k)
    ensures multiset(k)[':'] >= 2
  {
    assert k == [k[0]] + k[1..|k| - 1] + [k[|k| - 1]];
  }

  /** A string with fewer than two colons contains no shortcode. */
  lemma FewColonsNoShortcode(s: string, k: string)
    requires multiset(s)[':'] < 2 && IsShortcode(k)
    ensures !Contains(s, k)
  {
    ShortcodeColons(k);
    ContainsMultiset(s, k);
  }

  /** The pass leaves a string with fewer than two colons alone. */
  lemma SubstituteFewColons(table: seq<Entry>, s: string)
    requires WellFormed(table) && multiset(s)[':'] < 2
    ensures Substitute(table, s) == s
  {
    forall e | e in table ensures !Contains(s, Key(e)) {
      KeyIsShortcode(e);
      FewColonsNoShortcode(s, Key(e));
    }
    SubstituteUnchanged(table, s);
  }

  lemma NameHasNoColon(n: string)
    requires IsName(n)
    ensures multiset(n)[':'] == 0
  {
    assert forall i | 0 <= i < |n| :: n[i] != ':';
  }

  lemma EmojiHasNoColon(v: string)
    requires IsEmojiValue(v)
    ensures multiset(v)[':'] == 0
  {
    assert ':' !in v;
    assert ':' !in multiset(v);
  }

  /** The pass over `[a, b] + rest`: replace `a`'s key, then `b`'s, then the rest. */
  lemma SubstitutePair(a: Entry, b: Entry, rest: seq<Entry>, s: string)
    ensures Substitute([a, b] + rest, s)
         == Substitute(rest, ReplaceAll(ReplaceAll(s, Key(a), a.emoji), Key(b), b.emoji))
  {
    var order := [a, b] + rest;
    assert order[0] == a && order[1..] == [b] + rest;
    assert ([b] + rest)[0] == b && ([b] + rest)[1..] == rest;
  }

  /** Replacing a key that leads a string whose remainder holds at most one colon. */
  lemma ReplaceLeadingKey(a: Entry, tail: string)
    requires WellFormedEntry(a) && multiset(tail)[':'] < 2
    ensures ReplaceAll(Key(a) + tail, Key(a), a.emoji) == a.emoji + tail
  {
    KeyIsShortcode(a);
    ReplaceAllLeading(Key(a), tail, a.emoji);
    FewColonsNoShortcode(tail, Key(a));
  }

  /** Replacing a key that ends ":a:b:", where the letter before it is not in `b`. */
  lemma ReplaceTrailingKey(a: Entry, b: Entry)
    requires WellFormedEntry(a) && WellFormedEntry(b)
    requires a.name[|a.name| - 1] !in b.name
    ensures ReplaceAll(":" + a.name + Key(b), Key(b), b.emoji) == ":" + a.name + b.emoji
  {
    var n := |a.name|;
    var head, last := ":" + a.name[..n - 1], a.name[n - 1];
    assert ":" + a.name == head + [last];
    KeyIsShortcode(b);
    NameHasNoColon(a.name);
    assert last != ':';
    ReplaceAllAround(head, last, Key(b), Key(b), b.emoji);
    FewColonsNoShortcode(head, Key(b));
    ReplaceAllLeading(Key(b), "", b.emoji);
    assert Key(b) + "" == Key(b);
    FewColonsNoShortcode("", Key(b));
  }

  /** The colons left once the leading key of ":a:b:" is replaced: one. */
  lemma ColonsAfterLeadingKey(a: Entry, b: Entry)
    requires WellFormedEntry(a) && WellFormedEntry(b)
    ensures multiset(b.name + ":")[':'] == 1
    ensures multiset(a.emoji + (b.name + ":"))[':'] == 1
  {
    NameHasNoColon(b.name);
    EmojiHasNoColon(a.emoji);
    assert multiset(a.emoji + (b.name + ":")) == multiset(a.emoji) + multiset(b.name + ":");
  }

  /** The first two replacements over ":a:b:" when `a` comes first. */
  lemma LeadingKeyReplaced(a: Entry, b: Entry)
    requires WellFormedEntry(a) && WellFormedEntry(b)
    ensures var s1 := a.emoji + (b.name + ":");
      ReplaceAll(ReplaceAll(Key(a) + (b.name + ":"), Key(a), a.emoji), Key(b), b.emoji) == s1
  {
    var s1 := a.emoji + (b.name + ":");
    ColonsAfterLeadingKey(a, b);
    ReplaceLeadingKey(a, b.name + ":");
    KeyIsShortcode(b);
    FewColonsNoShortcode(s1, Key(b));
  }

  /** Two entries whose keys can share a colon, as in ":a:b:". Ranging over
      `a` first replaces the leading key and leaves "b:". */
  lemma LeadingKeyFirst(a: Entry, b: Entry, rest: seq<Entry>)
    requires WellFormedEntry(a) && WellFormedEntry(b) && WellFormed(rest)
    ensures Substitute([a, b] + rest, Key(a) + b.name + ":") == a.emoji + b.name + ":"
  {
    var tail := b.name + ":";
    assert Key(a) + b.name + ":" == Key(a) + tail;
    assert a.emoji + b.name + ":" == a.emoji + tail;
    LeadingKeyReplaced(a, b);
    ColonsAfterLeadingKey(a, b);
    SubstituteFewColons(rest, a.emoji + tail);
    SubstitutePair(a, b, rest, Key(a) + tail);
  }

  /** Ranging over `b` first replaces the trailing key of ":a:b:" and leaves
      ":a", provided the last letter of `a` does not occur in `b`. The result
      holds whenever a.name != b.name; the narrower condition lets the proof
      split the text at that letter, which the key of `b` cannot span, instead
      of ruling out an occurrence of ":b:" at every colon. It is enough for
      the example this lemma serves, ":bug:art:" ('g' is not in "art"). */
  lemma TrailingKeyFirst(a: Entry, b: Entry, rest: seq<Entry>)
    requires WellFormedEntry(a) && WellFormedEntry(b) && WellFormed(rest)
    requires a.name[|a.name| - 1] !in b.name
    ensures Substitute([b, a] + rest, Key(a) + b.name + ":") == ":" + a.name + b.emoji
  {
    var s := ":" + a.name + Key(b);
    assert Key(a) + b.name + ":" == s;
    ReplaceTrailingKey(a, b);
    var s2 := ":" + a.name + b.emoji;
    KeyIsShortcode(a);
    NameHasNoColon(a.name);
    EmojiHasNoColon(b.emoji);
    FewColonsNoShortcode(s2, Key(a));
    SubstitutePair(b, a, rest, s);
    SubstituteFewColons(rest, s2);
  }

  /** Moving two neighbouring entries to the front, in either order, keeps the
      entries and their number. */
  lemma PairToFront(t: seq<Entry>, i: nat)
    requires i + 1 < |t|
    ensures var rest := t[..i] + t[i + 2..];
      && |[t[i], t[i + 1]] + rest| == |t| && |[t[i + 1], t[i]] + rest| == |t|
      && (forall e :: e in [t[i], t[i + 1]] + rest <==> e in t)
      && (forall e :: e in [t[i + 1], t[i]] + rest <==> e in t)
  {
    assert t == t[..i] + [t[i], t[i + 1]] + t[i + 2..];
  }

  lemma BugArtWellFormed()
    ensures WellFormedEntry(Entry("bug", "\U{1F41B}")) && WellFormedEntry(Entry("art", "\U{1F3A8}"))
    ensures Key(Entry("bug", "\U{1F41B}")) + "art" + ":" == ":bug:art:"
    ensures 'g' !in "art"
    ensures "\U{1F41B}" + "art" + ":" == "\U{1F41B}art:" && ":" + "bug" + "\U{1F3A8}" == ":bug\U{1F3A8}"
  {
  }

  /** ":bug:art:" when `bug` comes before `art`. */
  lemma BugThenArt(rest: seq<Entry>)
    requires WellFormed(rest)
    ensures Substitute([Entry("bug", "\U{1F41B}"), Entry("art", "\U{1F3A8}")] + rest, ":bug:art:") == "\U{1F41B}art:"
  {
    BugArtWellFormed();
    LeadingKeyFirst(Entry("bug", "\U{1F41B}"), Entry("art", "\U{1F3A8}"), rest);
  }

  /** ":bug:art:" when `art` comes before `bug`. */
  lemma ArtThenBug(rest: seq<Entry>)
    requires WellFormed(rest)
    ensures Substitute([Entry("art", "\U{1F3A8}"), Entry("bug", "\U{1F41B}")] + rest, ":bug:art:") == ":bug\U{1F3A8}"
  {
    BugArtWellFormed();
    TrailingKeyFirst(Entry("bug", "\U{1F41B}"), Entry("art", "\U{1F3A8}"), rest);
  }
}
