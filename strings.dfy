/** Python string operations that the importer relies on: `str(n)` of a natural,
    `str.split` on one delimiter, `str.join`, `re.sub` with a literal pattern, and
    the cleanliness condition under which split and join are inverse. */
module Strings {

  /** The decimal digit for `d`. */
  function Digit(d: nat): (c: char)
    requires d < 10
    ensures '0' <= c <= '9'
    ensures c as int - '0' as int == d
  {
    (48 + d) as char
  }

  /** `str(n)` for a natural number: its decimal rendering, without leading zeros. */
  function NatToString(n: nat): (s: string)
    ensures 1 <= |s|
    ensures forall i :: 0 <= i < |s| ==> '0' <= s[i] <= '9'
    ensures n < 10 <==> |s| == 1
  {
    if n < 10 then [Digit(n)] else NatToString(n / 10) + [Digit(n % 10)]
  }

  /** Different numbers render differently, so names built from ordinals are distinct. */
  lemma {:induction false} NatToStringInjective(m: nat, n: nat)
    requires NatToString(m) == NatToString(n)
    ensures m == n
  {
    if m < 10 && n < 10 {
      assert Digit(m) == NatToString(m)[0] == NatToString(n)[0] == Digit(n);
    } else if 10 <= m && 10 <= n {
      var sm, sn := NatToString(m), NatToString(n);
      assert sm[|sm| - 1] == Digit(m % 10) && sn[|sn| - 1] == Digit(n % 10);
      assert sm[..|sm| - 1] == NatToString(m / 10);
      assert sn[..|sn| - 1] == NatToString(n / 10);
      NatToStringInjective(m / 10, n / 10);
    }
  }

  /** Taking one more element of a sequence appends that element. */
  lemma TakeSnoc<T>(s: seq<T>, i: nat)
    requires i < |s|
    ensures s[..i + 1] == s[..i] + [s[i]]
  {
  }

  /** `sep.join(parts)`: the parts with `d` between consecutive parts. */
  function Join(parts: seq<string>, d: char): string
  {
    if |parts| == 0 then ""
    else if |parts| == 1 then parts[0]
    else parts[0] + [d] + Join(parts[1..], d)
  }

  /** `s.split(d)`: the maximal `d`-free pieces of `s`; an empty `s` gives `[""]`. */
  function Split(s: string, d: char): (parts: seq<string>)
    ensures 1 <= |parts|
    ensures forall i :: 0 <= i < |parts| ==> d !in parts[i]
    decreases |s|
  {
    if s == [] then [""]
    else
      var rest := Split(s[1..], d);
      if s[0] == d then [""] + rest
      else [[s[0]] + rest[0]] + rest[1..]
  }

  /** Splitting distributes over a delimiter: the delimiter between `a` and `b`
      ends the last piece of `a` and starts the first piece of `b`. */
  lemma {:induction false} SplitConcat(a: string, d: char, b: string)
    ensures Split(a + [d] + b, d) == Split(a, d) + Split(b, d)
    decreases |a|
  {
    var s := a + [d] + b;
    if a == [] {
      assert s[1..] == b;
    } else {
      assert s[1..] == a[1..] + [d] + b;
      SplitConcat(a[1..], d, b);
    }
  }

  /** A string without the delimiter splits into itself. */
  lemma {:induction false} SplitFree(a: string, d: char)
    requires d !in a
    ensures Split(a, d) == [a]
    decreases |a|
  {
    if a != [] {
      SplitFree(a[1..], d);
      assert [a[0]] + a[1..] == a;
    }
  }

  /** Joining and then splitting gives back at least as many pieces as were joined. */
  lemma {:induction false} SplitJoinLength(parts: seq<string>, d: char)
    requires 1 <= |parts|
    ensures |parts| <= |Split(Join(parts, d), d)|
    decreases |parts|
  {
    if 1 < |parts| {
      SplitConcat(parts[0], d, Join(parts[1..], d));
      SplitJoinLength(parts[1..], d);
    }
  }

  /** Split inverts Join when no part contains the delimiter. */
  lemma {:induction false} SplitJoin(parts: seq<string>, d: char)
    requires 1 <= |parts|
    requires forall i :: 0 <= i < |parts| ==> d !in parts[i]
    ensures Split(Join(parts, d), d) == parts
    decreases |parts|
  {
    if |parts| == 1 {
      SplitFree(parts[0], d);
    } else {
      SplitConcat(parts[0], d, Join(parts[1..], d));
      SplitFree(parts[0], d);
      SplitJoin(parts[1..], d);
      assert [parts[0]] + parts[1..] == parts;
    }
  }

  predicate StartsWith(s: string, pat: string)
  {
    |pat| <= |s| && s[..|pat|] == pat
  }

  /** `pat` occurs nowhere in `s`. */
  ghost predicate Free(s: string, pat: string)
  {
    forall i :: 0 <= i <= |s| ==> !StartsWith(s[i..], pat)
  }

  /** `re.sub(pat, rep, s)` for a pattern without metacharacters: every
      occurrence of `pat`, scanning left to right without overlap, becomes `rep`. */
  function Replace(s: string, pat: string, rep: string): string
    requires 0 < |pat|
    decreases |s|
  {
    if |s| == 0 then ""
    else if StartsWith(s, pat) then rep + Replace(s[|pat|..], pat, rep)
    else [s[0]] + Replace(s[1..], pat, rep)
  }

  /** A string in which the pattern does not occur is left as it is. */
  lemma {:induction false} ReplaceFree(s: string, pat: string, rep: string)
    requires 0 < |pat| && Free(s, pat)
    ensures Replace(s, pat, rep) == s
    decreases |s|
  {
    if |s| != 0 {
      assert !StartsWith(s[0..], pat);
      assert s[0..] == s;
      assert Free(s[1..], pat) by {
        forall i | 0 <= i <= |s[1..]| ensures !StartsWith(s[1..][i..], pat) {
          assert s[1..][i..] == s[i + 1..];
        }
      }
      ReplaceFree(s[1..], pat, rep);
      assert [s[0]] + s[1..] == s;
    }
  }

  /** The pattern itself is replaced as a whole. */
  lemma ReplaceWhole(pat: string, rep: string)
    requires 0 < |pat|
    ensures Replace(pat, pat, rep) == rep
  {
    assert pat[..|pat|] == pat;
    assert pat[|pat|..] == [];
  }

  /** A one-character pattern: the text before its first occurrence is kept,
      the occurrence is replaced, and the scan resumes after it. */
  lemma {:induction false} ReplaceAtFirst(a: string, c: char, b: string, rep: string)
    requires c !in a
    ensures Replace(a + [c] + b, [c], rep) == a + rep + Replace(b, [c], rep)
    decreases |a|
  {
    var s := a + [c] + b;
    if a == [] {
      assert s[..1] == [c];
      assert s[1..] == b;
    } else {
      assert s[..1] == [a[0]];
      assert s[1..] == a[1..] + [c] + b;
      ReplaceAtFirst(a[1..], c, b, rep);
      assert [a[0]] + a[1..] == a;
    }
  }

  /** A one-character pattern occurring once is replaced at that place. */
  lemma ReplaceOnce(a: string, c: char, b: string, rep: string)
    requires c !in a && c !in b
    ensures Replace(a + [c] + b, [c], rep) == a + rep + b
  {
    ReplaceAtFirst(a, c, b, rep);
    FreeByFirst(b, [c]);
    ReplaceFree(b, [c], rep);
  }

  /** A string that lacks the first character of the pattern is free of it. */
  lemma FreeByFirst(s: string, pat: string)
    requires 0 < |pat| && pat[0] !in s
    ensures Free(s, pat)
  {
    forall i | 0 <= i <= |s| ensures !StartsWith(s[i..], pat) {
      assert i < |s| ==> s[i..][0] == s[i];
    }
  }

  /** Gluing two pattern-free strings with a character the pattern does not
      contain creates no occurrence across the seam. */
  lemma FreeConcat(a: string, c: char, b: string, pat: string)
    requires Free(a, pat) && Free(b, pat) && c !in pat
    ensures Free(a + [c] + b, pat)
  {
    var s := a + [c] + b;
    forall i | 0 <= i <= |s| ensures !StartsWith(s[i..], pat) {
      if i + |pat| <= |a| {
        assert s[i..][..|pat|] == a[i..][..|pat|];
      } else if i <= |a| {
        assert i + |pat| <= |s| ==> s[i..][..|pat|][|a| - i] == c;
      } else {
        assert s[i..] == b[i - |a| - 1..];
      }
    }
  }

  /** The characters the importer uses as separators inside composite keys and
      rows: `,` between columns, `^` between key parts, `%` as an escaped comma. */
  predicate Separator(c: char)
  {
    c == ',' || c == '^' || c == '%'
  }

  /** A value that survives being embedded in a composite key or a comma-joined
      row: no separator, and no `CONFIG` placeholder for the plugin rewrite. */
  ghost predicate Clean(s: string)
  {
    (forall i :: 0 <= i < |s| ==> !Separator(s[i])) && Free(s, "CONFIG")
  }

  lemma CleanNoSeparator(s: string)
    requires Clean(s)
    ensures ',' !in s && '^' !in s && '%' !in s
    ensures KeyPart(s) && PlainPart(s)
  {
  }

  /** A value that can be one part of a `^`-joined composite whose parts end up
      in a comma-joined row: neither separator occurs in it. */
  ghost predicate KeyPart(s: string)
  {
    ',' !in s && '^' !in s
  }

  /** A key part that the rewrite of `%` back to `,` leaves alone. */
  ghost predicate PlainPart(s: string)
  {
    KeyPart(s) && '%' !in s
  }

  /** A string without separators and without the letter C is clean. */
  lemma CleanPlain(s: string)
    requires forall i :: 0 <= i < |s| ==> !Separator(s[i]) && s[i] != 'C'
    ensures Clean(s)
  {
    FreeByFirst(s, "CONFIG");
  }

  /** Two clean strings glued with a clean character stay clean. */
  lemma CleanConcat(a: string, c: char, b: string)
    requires Clean(a) && Clean(b) && !Separator(c) && c !in "CONFIG"
    ensures Clean(a + [c] + b)
  {
    FreeConcat(a, c, b, "CONFIG");
    var s := a + [c] + b;
    forall i | 0 <= i < |s| ensures !Separator(s[i]) {
      if i < |a| { assert s[i] == a[i]; }
      else if i > |a| { assert s[i] == b[i - |a| - 1]; }
    }
  }

  lemma NatToStringClean(n: nat)
    ensures Clean(NatToString(n))
  {
    CleanPlain(NatToString(n));
  }
}
