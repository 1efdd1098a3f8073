/** The string operations the scene-instruction interpreter relies on:
    `str.strip()`, `str.lower()` (ASCII letters only), `str.split(sep)`,
    `str.split(' ', 1)`, `in` on strings and `str.replace`. */
module Text {

  /** The characters `str.strip()` removes: those for which `str.isspace()`
      holds, that is the ASCII blanks and controls tab to carriage return,
      the four separators U+001C to U+001F, and the Unicode spaces and line
      and paragraph separators. */
  predicate IsSpace(c: char) {
    || c == ' ' || ('\t' <= c <= '\r') || ('\U{001C}' <= c <= '\U{001F}')
    || c == '\U{0085}' || c == '\U{00A0}' || c == '\U{1680}'
    || ('\U{2000}' <= c <= '\U{200A}') || c == '\U{2028}' || c == '\U{2029}'
    || c == '\U{202F}' || c == '\U{205F}' || c == '\U{3000}'
  }

  /** `s` with its leading whitespace removed. */
  function StripStart(s: string): string
    decreases |s|
  {
    if s != [] && IsSpace(s[0]) then StripStart(s[1..]) else s
  }

  /** `s` with its trailing whitespace removed. */
  function StripEnd(s: string): string
    decreases |s|
  {
    if s != [] && IsSpace(s[|s| - 1]) then StripEnd(s[..|s| - 1]) else s
  }

  /** `str.strip()`. */
  function Strip(s: string): string {
    StripEnd(StripStart(s))
  }

  /** `StripStart` removes a run of whitespace from the front and stops at
      the first other character. */
  lemma {:induction false} StripStartIsSuffix(s: string)
    ensures var r := StripStart(s);
      && |r| <= |s| && r == s[|s| - |r|..]
      && (forall i :: 0 <= i < |s| - |r| ==> IsSpace(s[i]))
      && (r != [] ==> !IsSpace(r[0]))
    decreases |s|
  {
    if s != [] && IsSpace(s[0]) {
      StripStartIsSuffix(s[1..]);
    }
  }

  /** `StripEnd` removes a run of whitespace from the back and stops at the
      last other character. */
  lemma {:induction false} StripEndIsPrefix(s: string)
    ensures var r := StripEnd(s);
      && |r| <= |s| && r == s[..|r|]
      && (forall i :: |r| <= i < |s| ==> IsSpace(s[i]))
      && (r != [] ==> !IsSpace(r[|r| - 1]))
    decreases |s|
  {
    if s != [] && IsSpace(s[|s| - 1]) {
      StripEndIsPrefix(s[..|s| - 1]);
    }
  }

  /** What `Strip` removes is whitespace and nothing else: the result is the
      piece of `s` between the leading and the trailing whitespace, and it
      neither starts nor ends with whitespace. */
  lemma StripIsTrim(s: string)
    ensures var k := |s| - |StripStart(s)|;
      && 0 <= k && k + |Strip(s)| <= |s|
      && Strip(s) == s[k..k + |Strip(s)|]
      && (forall i :: 0 <= i < k ==> IsSpace(s[i]))
      && (forall i :: k + |Strip(s)| <= i < |s| ==> IsSpace(s[i]))
      && (Strip(s) != [] ==> !IsSpace(Strip(s)[0]) && !IsSpace(Strip(s)[|Strip(s)| - 1]))
  {
    var t := StripStart(s);
    StripStartIsSuffix(s);
    StripEndIsPrefix(t);
    var k := |s| - |t|;
    var r := StripEnd(t);
    forall i | k + |r| <= i < |s| ensures IsSpace(s[i]) {
      assert s[i] == t[i - k];
    }
    if r != [] && !IsSpace(t[0]) {
      assert r[0] == t[0];
    }
  }

  /** A string that neither starts nor ends with whitespace is its own
      `Strip`, also once a line break is appended. */
  lemma StripUnpadded(s: string)
    requires s != [] && !IsSpace(s[0]) && !IsSpace(s[|s| - 1])
    ensures Strip(s) == s && Strip(s + "\n") == s
  {
    assert (s + "\n")[0] == s[0];
    assert (s + "\n")[..|s|] == s;
  }

  /** ASCII `str.lower()` of one character. */
  function LowerChar(c: char): char {
    if 'A' <= c <= 'Z' then (c as int - 'A' as int + 'a' as int) as char else c
  }

  /** ASCII `str.lower()`. */
  function Lower(s: string): string
    decreases |s|
  {
    if s == [] then [] else [LowerChar(s[0])] + Lower(s[1..])
  }

  /** `Lower` keeps the length and lowers every character on its own. */
  lemma {:induction false} LowerEachChar(s: string)
    ensures |Lower(s)| == |s|
    ensures forall i :: 0 <= i < |s| ==> Lower(s)[i] == LowerChar(s[i])
    decreases |s|
  {
    if s != [] {
      LowerEachChar(s[1..]);
    }
  }

  /** A string without upper-case ASCII letters is its own `Lower`. */
  lemma LowerUnchanged(s: string)
    requires forall i :: 0 <= i < |s| ==> !('A' <= s[i] <= 'Z')
    ensures Lower(s) == s
  {
    LowerEachChar(s);
  }

  /** The parts joined back with `sep` between them. */
  function Join(parts: seq<string>, sep: char): string
    requires |parts| >= 1
    decreases |parts|
  {
    if |parts| == 1 then parts[0] else parts[0] + [sep] + Join(parts[1..], sep)
  }

  /** A join ends with its last part. */
  lemma {:induction false} JoinEndsWithLast(parts: seq<string>, sep: char)
    requires |parts| >= 1
    ensures var j, last := Join(parts, sep), parts[|parts| - 1];
      |last| <= |j| && j[|j| - |last|..] == last
    decreases |parts|
  {
    if |parts| > 1 {
      JoinEndsWithLast(parts[1..], sep);
      var rest := Join(parts[1..], sep);
      var head := parts[0] + [sep];
      assert Join(parts, sep) == head + rest;
      var last := parts[|parts| - 1];
      assert (head + rest)[|head + rest| - |last|..] == rest[|rest| - |last|..];
    }
  }

  /** `str.split(sep)` with an explicit separator. */
  function Split(s: string, sep: char): seq<string>
    decreases |s|
  {
    if s == [] then [[]]
    else
      var rest := Split(s[1..], sep);
      if s[0] == sep then [[]] + rest
      else [[s[0]] + rest[0]] + rest[1..]
  }

  /** No part `Split` gives holds `sep`. */
  lemma {:induction false} SplitPartsLackSep(s: string, sep: char)
    ensures |Split(s, sep)| >= 1
    ensures forall k :: 0 <= k < |Split(s, sep)| ==> sep !in Split(s, sep)[k]
    decreases |s|
  {
    if s != [] {
      SplitPartsLackSep(s[1..], sep);
    }
  }

  /** Putting `c` in front of the first part puts it in front of the join. */
  lemma JoinConsHead(c: char, parts: seq<string>, sep: char)
    requires |parts| >= 1
    ensures Join([[c] + parts[0]] + parts[1..], sep) == [c] + Join(parts, sep)
  {
    var q := [[c] + parts[0]] + parts[1..];
    if |parts| > 1 {
      assert q[1..] == parts[1..];
      var tail := [sep] + Join(parts[1..], sep);
      assert Join(q, sep) == ([c] + parts[0]) + tail;
      assert Join(parts, sep) == parts[0] + tail;
    }
  }

  /** Joining the parts `Split` gives with `sep` gives `s` back. */
  lemma {:induction false} SplitJoinsBack(s: string, sep: char)
    ensures |Split(s, sep)| >= 1 && Join(Split(s, sep), sep) == s
    decreases |s|
  {
    if s != [] {
      var rest := Split(s[1..], sep);
      SplitJoinsBack(s[1..], sep);
      if s[0] == sep {
        assert ([[]] + rest)[1..] == rest;
      } else {
        JoinConsHead(s[0], rest, sep);
      }
      assert [s[0]] + s[1..] == s;
    }
  }

  /** Splitting what `Join` built gives the parts back, when no part holds the
      separator: together with `Split`'s contract, `Split` and `Join` are
      inverse to each other. */
  lemma {:induction false} SplitJoin(parts: seq<string>, sep: char)
    requires |parts| >= 1
    requires forall k :: 0 <= k < |parts| ==> sep !in parts[k]
    ensures Split(Join(parts, sep), sep) == parts
    decreases |parts|, |parts[0]|
  {
    var p := parts[0];
    if |parts| == 1 {
      SplitNoSep(p, sep);
    } else if p == [] {
      SplitJoin(parts[1..], sep);
      assert Join(parts, sep) == [sep] + Join(parts[1..], sep);
      assert ([sep] + Join(parts[1..], sep))[1..] == Join(parts[1..], sep);
    } else {
      var parts' := [p[1..]] + parts[1..];
      assert sep !in parts'[0];
      SplitJoin(parts', sep);
      assert [p[0]] + p[1..] == p;
      assert [[p[0]] + parts'[0]] + parts'[1..] == parts;
      JoinConsHead(p[0], parts', sep);
      var j := Join(parts', sep);
      assert ([p[0]] + j)[1..] == j;
    }
  }

  lemma {:induction false} SplitNoSep(s: string, sep: char)
    requires sep !in s
    ensures Split(s, sep) == [s]
    decreases |s|
  {
    if s != [] {
      SplitNoSep(s[1..], sep);
      assert [s[0]] + s[1..] == s;
    }
  }

  /** `str.split(sep, 1)`: one part, or two when `s` holds `sep`. */
  function SplitOnce(s: string, sep: char): (r: seq<string>)
    ensures 1 <= |r| <= 2
    decreases |s|
  {
    if s == [] then [[]]
    else if s[0] == sep then [[], s[1..]]
    else
      var t := SplitOnce(s[1..], sep);
      [[s[0]] + t[0]] + t[1..]
  }

  /** `SplitOnce` cuts `s` at its first `sep`: the text before it and, when
      there is one, the text after it. */
  lemma {:induction false} SplitOnceAtFirst(s: string, sep: char)
    ensures var r := SplitOnce(s, sep);
      && (|r| == 1 <==> sep !in s)
      && (|r| == 1 ==> r[0] == s)
      && (|r| == 2 ==> sep !in r[0] && r[0] + [sep] + r[1] == s)
    decreases |s|
  {
    if s != [] && s[0] != sep {
      SplitOnceAtFirst(s[1..], sep);
      assert [s[0]] + s[1..] == s;
    }
  }

  /** When the first `sep` in `s` is at `k`, `SplitOnce` cuts there. */
  lemma {:induction false} SplitOnceAt(s: string, sep: char, k: nat)
    requires k < |s| && s[k] == sep && sep !in s[..k]
    ensures SplitOnce(s, sep) == [s[..k], s[k + 1..]]
    decreases k
  {
    if k > 0 {
      assert s[0] == s[..k][0];
      assert s[1..][..k - 1] == s[..k][1..];
      SplitOnceAt(s[1..], sep, k - 1);
      assert [s[0]] + s[1..][..k - 1] == s[..k];
    }
  }

  /** `needle` occurs in `hay` starting at index `i`. */
  ghost predicate OccursAt(needle: string, hay: string, i: int) {
    0 <= i <= |hay| - |needle| && needle <= hay[i..]
  }

  /** `needle in hay`. */
  function Contains(hay: string, needle: string): bool
    decreases |hay|
  {
    if needle <= hay then true
    else if hay == [] then false
    else Contains(hay[1..], needle)
  }

  /** `Contains` is true exactly when `needle` occurs somewhere in `hay`. */
  lemma {:induction false} ContainsOccurs(hay: string, needle: string)
    ensures Contains(hay, needle) <==> exists i :: OccursAt(needle, hay, i)
    decreases |hay|
  {
    if needle <= hay {
      assert OccursAt(needle, hay, 0);
    } else if hay != [] {
      ContainsOccurs(hay[1..], needle);
      forall i ensures OccursAt(needle, hay[1..], i) <==> OccursAt(needle, hay, i + 1) {
        if 0 <= i <= |hay| - 1 - |needle| {
          assert hay[1..][i..] == hay[i + 1..];
        }
      }
      assert forall i :: OccursAt(needle, hay, i) ==> i >= 1;
      assert forall i :: OccursAt(needle, hay, i) ==> OccursAt(needle, hay[1..], i - 1);
    }
  }

  /** `s.replace(pat, rep)`: every occurrence of `pat`, taken from left to
      right without overlap, replaced by `rep`. */
  function ReplaceAll(s: string, pat: string, rep: string): string
    requires pat != []
    decreases |s|
  {
    if pat <= s then rep + ReplaceAll(s[|pat|..], pat, rep)
    else if s == [] then []
    else [s[0]] + ReplaceAll(s[1..], pat, rep)
  }

  /** A string without the pattern is left as it is. */
  lemma {:induction false} ReplaceAllAbsent(s: string, pat: string, rep: string)
    requires pat != []
    requires !Contains(s, pat)
    ensures ReplaceAll(s, pat, rep) == s
    decreases |s|
  {
    if s != [] {
      assert !Contains(s[1..], pat);
      ReplaceAllAbsent(s[1..], pat, rep);
      assert [s[0]] + s[1..] == s;
    }
  }

  /** Where the pattern does not start, the first character is kept. */
  lemma ReplaceAllKeepsHead(s: string, pat: string, rep: string)
    requires pat != [] && s != [] && !(pat <= s)
    ensures ReplaceAll(s, pat, rep) == [s[0]] + ReplaceAll(s[1..], pat, rep)
  {
  }

  lemma HeadOff(a: string, pat: string, b: string)
    requires a != []
    ensures (a + pat + b)[1..] == a[1..] + pat + b
  {
  }

  lemma HeadOn(a: string, rep: string, r: string)
    requires a != []
    ensures [a[0]] + (a[1..] + rep + r) == a + rep + r
  {
    assert [a[0]] + a[1..] == a;
  }

  /** The first occurrence of the pattern becomes `rep`: when `a` holds no
      occurrence, not even one running into the `pat` after it, `a` is kept,
      that `pat` is replaced, and the rest is replaced the same way. With
      `ReplaceAllAbsent` this says what `replace` does to every string. */
  lemma {:induction false} ReplaceAllFirst(a: string, pat: string, b: string, rep: string)
    requires pat != [] && !Contains(a + pat[..|pat| - 1], pat)
    ensures ReplaceAll(a + pat + b, pat, rep) == a + rep + ReplaceAll(b, pat, rep)
    decreases |a|
  {
    var s := a + pat + b;
    if a == [] {
      assert s[|pat|..] == b by {
        assert s == pat + b;
      }
    } else {
      var front := a + pat[..|pat| - 1];
      assert !(pat <= s) by {
        assert front == s[..|front|];
      }
      assert !Contains(a[1..] + pat[..|pat| - 1], pat) by {
        assert front[1..] == a[1..] + pat[..|pat| - 1];
      }
      ReplaceAllFirst(a[1..], pat, b, rep);
      ReplaceAllKeepsHead(s, pat, rep);
      HeadOff(a, pat, b);
      HeadOn(a, rep, ReplaceAll(b, pat, rep));
    }
  }
}
