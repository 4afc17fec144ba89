/**
 * The JavaScript string operations the core relies on: `toLowerCase`
 * (ASCII letters only), `includes`, `startsWith`, `Array.prototype.join`
 * and `trim`. A `string` is a sequence of Unicode scalar values, not of
 * UTF-16 code units; nothing here depends on the difference, since every
 * pattern the core looks for is ASCII and every character `trim` and `\s`
 * treat as whitespace is a single code unit.
 *
 * `Split` on one character is not used by the core: it is the reading side
 * of the CSV round trip.
 */
module Text {

  /** Lower-cases one ASCII letter and leaves every other character alone. */
  function LowerChar(c: char): char {
    if 'A' <= c <= 'Z' then (c as int + 32) as char else c
  }

  /** `s.toLowerCase()` restricted to ASCII case folding. */
  function ToLower(s: string): string {
    seq(|s|, i requires 0 <= i < |s| => LowerChar(s[i]))
  }

  /** `s.startsWith(prefix)` */
  predicate StartsWith(s: string, prefix: string) {
    |prefix| <= |s| && s[..|prefix|] == prefix
  }

  /** An occurrence of `pat` at offset `i`. */
  predicate OccursAt(s: string, pat: string, i: int) {
    0 <= i && i + |pat| <= |s| && s[i..i + |pat|] == pat
  }

  /** `s.includes(pat)`: `pat` occurs in `s` at some offset (the empty pattern everywhere). */
  predicate Contains(s: string, pat: string) {
    exists i :: 0 <= i <= |s| - |pat| && OccursAt(s, pat, i)
  }

  lemma ContainsAt(s: string, pat: string, i: int)
    requires OccursAt(s, pat, i)
    ensures Contains(s, pat)
  {
  }

  lemma ContainsWitness(s: string, pat: string) returns (i: nat)
    requires Contains(s, pat)
    ensures OccursAt(s, pat, i)
  {
    i :| OccursAt(s, pat, i);
  }

  lemma ContainsSelf(s: string)
    ensures Contains(s, s)
  {
    assert OccursAt(s, s, 0);
  }

  /** A pattern found in the left piece of a concatenation is found in the whole. */
  lemma ContainsLeft(a: string, b: string, pat: string)
    requires Contains(a, pat)
    ensures Contains(a + b, pat)
  {
    var i := ContainsWitness(a, pat);
    assert (a + b)[i..i + |pat|] == a[i..i + |pat|];
    ContainsAt(a + b, pat, i);
  }

  /** A pattern found in the right piece of a concatenation is found in the whole. */
  lemma ContainsRight(a: string, b: string, pat: string)
    requires Contains(b, pat)
    ensures Contains(a + b, pat)
  {
    var i := ContainsWitness(b, pat);
    assert (a + b)[|a| + i..|a| + i + |pat|] == b[i..i + |pat|];
    ContainsAt(a + b, pat, |a| + i);
  }

  /** An occurrence inside an occurrence is an occurrence. */
  lemma ContainsTransitive(s: string, mid: string, pat: string)
    requires Contains(s, mid) && Contains(mid, pat)
    ensures Contains(s, pat)
  {
    var i := ContainsWitness(s, mid);
    var k := ContainsWitness(mid, pat);
    var occurrence := s[i + k..i + k + |pat|];
    forall t | 0 <= t < |pat| ensures occurrence[t] == pat[t] {
      calc {
        occurrence[t];
        s[i + k + t];
        s[i..i + |mid|][k + t];
        mid[k + t];
        mid[k..k + |pat|][t];
      }
    }
    ContainsAt(s, pat, i + k);
  }

  lemma StartsWithTransitive(s: string, p: string, q: string)
    requires StartsWith(s, p) && StartsWith(p, q)
    ensures StartsWith(s, q)
  {
    assert s[..|q|] == p[..|q|];
  }

  lemma StartsWithLeft(a: string, b: string)
    ensures StartsWith(a + b, a)
  {
    assert (a + b)[..|a|] == a;
  }

  lemma LastOfAppend(a: string, b: string)
    requires b != []
    ensures a + b != [] && (a + b)[|a + b| - 1] == b[|b| - 1]
  {
  }

  /** `parts.join(sep)`: the empty array gives "", one element gives itself. */
  function Join(parts: seq<string>, sep: string): string {
    if |parts| == 0 then ""
    else if |parts| == 1 then parts[0]
    else parts[0] + sep + Join(parts[1..], sep)
  }

  /** The joined text begins with the first part. */
  lemma {:induction false} JoinStartsWithFirst(parts: seq<string>, sep: string)
    requires parts != []
    ensures StartsWith(Join(parts, sep), parts[0])
  {
    if |parts| > 1 {
      assert Join(parts, sep) == parts[0] + (sep + Join(parts[1..], sep));
    }
  }

  /** Every part occurs in the joined text. */
  lemma {:induction false} JoinContainsPart(parts: seq<string>, sep: string, k: int)
    requires 0 <= k < |parts|
    ensures Contains(Join(parts, sep), parts[k])
    decreases |parts|
  {
    if |parts| == 1 {
      ContainsSelf(parts[0]);
    } else if k == 0 {
      ContainsSelf(parts[0]);
      ContainsLeft(parts[0], sep, parts[0]);
      ContainsLeft(parts[0] + sep, Join(parts[1..], sep), parts[0]);
    } else {
      JoinContainsPart(parts[1..], sep, k - 1);
      ContainsRight(parts[0] + sep, Join(parts[1..], sep), parts[k]);
    }
  }

  /** The joined text ends with the last character of the last part. */
  lemma {:induction false} JoinEndsWithLast(parts: seq<string>, sep: string)
    requires parts != [] && parts[|parts| - 1] != []
    ensures var j, last := Join(parts, sep), parts[|parts| - 1];
      j != [] && j[|j| - 1] == last[|last| - 1]
    decreases |parts|
  {
    if |parts| > 1 {
      JoinEndsWithLast(parts[1..], sep);
      LastOfAppend(parts[0] + sep, Join(parts[1..], sep));
    }
  }

  /** Joining parts of which one is non-empty gives a non-empty text. */
  lemma {:induction false} JoinNonEmpty(parts: seq<string>, sep: string, k: int)
    requires 0 <= k < |parts| && parts[k] != ""
    ensures Join(parts, sep) != ""
    decreases |parts|
  {
    if |parts| > 1 && k > 0 {
      JoinNonEmpty(parts[1..], sep, k - 1);
    }
  }

  /** `s.split(d)` for a one-character separator: always at least one piece. */
  function Split(s: string, d: char): (pieces: seq<string>)
    ensures |pieces| >= 1
  {
    if s == [] then [""]
    else
      var rest := Split(s[1..], d);
      if s[0] == d then [""] + rest
      else [[s[0]] + rest[0]] + rest[1..]
  }

  /** Splitting a text that begins with a separator-free piece and a separator peels that piece off. */
  lemma {:induction false} SplitAfterPiece(a: string, d: char, b: string)
    requires d !in a
    ensures Split(a + [d] + b, d) == [a] + Split(b, d)
    decreases |a|
  {
    if a == [] {
      assert a + [d] + b == [d] + b;
      assert ([d] + b)[1..] == b;
    } else {
      assert (a + [d] + b)[1..] == a[1..] + [d] + b;
      SplitAfterPiece(a[1..], d, b);
      assert [a[0]] + a[1..] == a;
    }
  }

  /** A text free of the separator splits into itself. */
  lemma {:induction false} SplitNoSeparator(s: string, d: char)
    requires d !in s
    ensures Split(s, d) == [s]
    decreases |s|
  {
    if s != [] {
      SplitNoSeparator(s[1..], d);
      assert [s[0]] + s[1..] == s;
    }
  }

  /** Splitting undoes joining when no part holds the separator. */
  lemma {:induction false} SplitJoin(parts: seq<string>, d: char)
    requires parts != []
    requires forall k :: 0 <= k < |parts| ==> d !in parts[k]
    ensures Split(Join(parts, [d]), d) == parts
    decreases |parts|
  {
    if |parts| == 1 {
      SplitNoSeparator(parts[0], d);
    } else {
      SplitJoin(parts[1..], d);
      SplitAfterPiece(parts[0], d, Join(parts[1..], [d]));
      assert [parts[0]] + parts[1..] == parts;
    }
  }

  /**
   * Splitting a join whose parts, all but the last, are free of the separator
   * gives those parts back, followed by the pieces of the last part.
   */
  lemma {:induction false} SplitJoinLast(parts: seq<string>, d: char)
    requires parts != []
    requires forall k :: 0 <= k < |parts| - 1 ==> d !in parts[k]
    ensures Split(Join(parts, [d]), d) == parts[..|parts| - 1] + Split(parts[|parts| - 1], d)
    decreases |parts|
  {
    if |parts| > 1 {
      SplitJoinLast(parts[1..], d);
      SplitAfterPiece(parts[0], d, Join(parts[1..], [d]));
      assert [parts[0]] + parts[1..][..|parts| - 2] == parts[..|parts| - 1];
    }
  }

  /** When the first part of a text holds the separator, the first piece stops inside it. */
  lemma {:induction false} SplitFirstPieceShorter(a: string, b: string, d: char)
    requires d in a
    ensures |Split(a + b, d)[0]| < |a|
    decreases |a|
  {
    if a[0] != d {
      assert (a + b)[1..] == a[1..] + b;
      SplitFirstPieceShorter(a[1..], b, d);
    }
  }

  /** Joining undoes splitting: no character of the text is lost. */
  lemma {:induction false} JoinSplit(s: string, d: char)
    ensures Join(Split(s, d), [d]) == s
    decreases |s|
  {
    if s != [] {
      JoinSplit(s[1..], d);
      var rest := Split(s[1..], d);
      if s[0] == d {
        assert Join([""] + rest, [d]) == "" + [d] + Join(rest, [d]);
        assert [s[0]] + s[1..] == s;
      } else {
        var pieces := [[s[0]] + rest[0]] + rest[1..];
        if |rest| == 1 {
          assert Join(pieces, [d]) == [s[0]] + rest[0];
        } else {
          assert rest == [rest[0]] + rest[1..];
          assert Join(rest, [d]) == rest[0] + [d] + Join(rest[1..], [d]);
          assert Join(pieces, [d]) == [s[0]] + rest[0] + [d] + Join(rest[1..], [d]);
        }
        assert [s[0]] + s[1..] == s;
      }
    }
  }

  /**
   * The characters `trim` removes and `\s` matches in ECMAScript:
   * WhiteSpace (tab, vertical tab, form feed, space, no-break space,
   * ogham space, en quad .. hair space, narrow no-break space, medium
   * mathematical space, ideographic space, byte order mark) and
   * LineTerminator (line feed, carriage return, line and paragraph separator).
   */
  predicate IsJsWhitespace(c: char) {
    var n := c as int;
    n == 0x09 || n == 0x0A || n == 0x0B || n == 0x0C || n == 0x0D || n == 0x20 ||
    n == 0xA0 || n == 0x1680 || (0x2000 <= n <= 0x200A) || n == 0x2028 || n == 0x2029 ||
    n == 0x202F || n == 0x205F || n == 0x3000 || n == 0xFEFF
  }

  predicate IsBlank(s: string) {
    forall i :: 0 <= i < |s| ==> IsJsWhitespace(s[i])
  }

  function TrimStart(s: string): string
    decreases |s|
  {
    if s != [] && IsJsWhitespace(s[0]) then TrimStart(s[1..]) else s
  }

  function TrimEnd(s: string): string
    decreases |s|
  {
    if s != [] && IsJsWhitespace(s[|s| - 1]) then TrimEnd(s[..|s| - 1]) else s
  }

  /** `s.trim()` */
  function Trim(s: string): string {
    TrimEnd(TrimStart(s))
  }

  /** What trimming the start leaves is a suffix whose first character is not whitespace, and all it drops is whitespace. */
  lemma {:induction false} TrimStartSpec(s: string)
    ensures exists k :: 0 <= k <= |s| && TrimStart(s) == s[k..] && IsBlank(s[..k])
    ensures TrimStart(s) != [] ==> !IsJsWhitespace(TrimStart(s)[0])
    decreases |s|
  {
    if s != [] && IsJsWhitespace(s[0]) {
      TrimStartSpec(s[1..]);
      var k :| 0 <= k <= |s[1..]| && TrimStart(s[1..]) == s[1..][k..] && IsBlank(s[1..][..k]);
      assert s[1..][k..] == s[k + 1..];
      assert s[..k + 1] == [s[0]] + s[1..][..k];
    } else {
      assert s[0..] == s;
    }
  }

  /** What trimming the end leaves is a prefix whose last character is not whitespace, and all it drops is whitespace. */
  lemma {:induction false} TrimEndSpec(s: string)
    ensures exists k :: 0 <= k <= |s| && TrimEnd(s) == s[..k] && IsBlank(s[k..])
    ensures TrimEnd(s) != [] ==> !IsJsWhitespace(TrimEnd(s)[|TrimEnd(s)| - 1])
    decreases |s|
  {
    if s != [] && IsJsWhitespace(s[|s| - 1]) {
      var t := s[..|s| - 1];
      TrimEndSpec(t);
      var k :| 0 <= k <= |t| && TrimEnd(t) == t[..k] && IsBlank(t[k..]);
      assert t[..k] == s[..k];
      assert forall i :: k <= i < |s| ==> s[i] == (if i < |s| - 1 then t[k..][i - k] else s[|s| - 1]);
    } else {
      assert s[..|s|] == s;
    }
  }

  /** `!s.trim()`: trimming leaves nothing exactly when every character is whitespace. */
  lemma TrimEmptyIffBlank(s: string)
    ensures Trim(s) == "" <==> IsBlank(s)
  {
    TrimStartSpec(s);
    var k :| 0 <= k <= |s| && TrimStart(s) == s[k..] && IsBlank(s[..k]);
    var t := TrimStart(s);
    TrimEndSpec(t);
    if Trim(s) == "" {
      var m :| 0 <= m <= |t| && TrimEnd(t) == t[..m] && IsBlank(t[m..]);
      assert m == 0 && t[m..] == t;
      assert t == [];
      assert s[..k] == s;
    }
  }

  /** A text with non-whitespace ends, after a run of whitespace, trims to itself. */
  lemma TrimLeadingBlank(ws: string, body: string)
    requires IsBlank(ws)
    requires body != [] && !IsJsWhitespace(body[0]) && !IsJsWhitespace(body[|body| - 1])
    ensures Trim(ws + body) == body
  {
    TrimStartPastBlank(ws, body);
  }

  lemma {:induction false} TrimStartPastBlank(ws: string, body: string)
    requires IsBlank(ws)
    requires body != [] && !IsJsWhitespace(body[0])
    ensures TrimStart(ws + body) == body
    decreases |ws|
  {
    if ws == [] {
      assert ws + body == body;
    } else {
      assert (ws + body)[1..] == ws[1..] + body;
      TrimStartPastBlank(ws[1..], body);
    }
  }
}
