/** String primitives that the Python backend and the TypeScript frontend take
    from their runtimes (str.strip, str.split, str.lower, str.isalnum, the `in`
    operator, int(), str(), String.prototype.trim, toLowerCase, includes).
    They are modelled over the ASCII range; what the runtimes do with other
    code points is not part of this model. */
module Text {

  import opened Common

  /** Python's str.isspace restricted to ASCII: tab, line feed, vertical tab,
      form feed, carriage return, the four information separators 0x1C-0x1F
      and space. These are also the characters `\s` matches in a str pattern
      and the ones str.strip() and str.split() remove. */
  predicate IsPySpace(c: char)
  {
    ('\t' <= c <= '\r') || ('\U{1C}' <= c <= '\U{1F}') || c == ' '
  }

  /** String.prototype.trim's white space and line terminators restricted to
      ASCII: tab, line feed, vertical tab, form feed, carriage return and space
      (no information separators, unlike Python). */
  predicate IsJsSpace(c: char)
  {
    ('\t' <= c <= '\r') || c == ' '
  }

  predicate IsAsciiDigit(c: char)
  {
    '0' <= c <= '9'
  }

  /** str.isalnum on a single ASCII character. */
  predicate IsAsciiAlnum(c: char)
  {
    IsAsciiDigit(c) || ('a' <= c <= 'z') || ('A' <= c <= 'Z')
  }

  /** str.lower / String.prototype.toLowerCase on one ASCII character. */
  function LowerChar(c: char): (r: char)
    ensures 'A' <= c <= 'Z' ==> r == c + ('a' - 'A')
    ensures !('A' <= c <= 'Z') ==> r == c
  {
    if 'A' <= c <= 'Z' then c - 'A' + 'a' else c
  }

  /** Lower-casing, character by character. */
  function Lower(s: string): (r: string)
    ensures |r| == |s|
    ensures forall i :: 0 <= i < |s| ==> r[i] == LowerChar(s[i])
  {
    seq(|s|, i requires 0 <= i < |s| => LowerChar(s[i]))
  }

  lemma {:induction false} LowerIdempotent(s: string)
    ensures Lower(Lower(s)) == Lower(s)
  {
    var once := Lower(s);
    var twice := Lower(once);
    forall i | 0 <= i < |s|
      ensures twice[i] == once[i]
    {
      assert once[i] == LowerChar(s[i]);
    }
  }

  /** The character classes the scanners below skip over. */
  datatype CharClass = PyBlank | JsBlank | PyWordChar | Digit | AllBut(c: char)

  predicate InClass(c: char, cls: CharClass)
  {
    match cls
    case PyBlank => IsPySpace(c)
    case JsBlank => IsJsSpace(c)
    case PyWordChar => !IsPySpace(c)
    case Digit => IsAsciiDigit(c)
    case AllBut(x) => c != x
  }

  // ---------------------------------------------------------------------
  // Scanning

  /** The end of the run of `cls` characters that starts at `i`: the first
      index at or after `i` that is the end of `s` or holds another
      character. */
  function SkipWhile(s: string, i: nat, cls: CharClass): (j: nat)
    requires i <= |s|
    ensures i <= j <= |s|
    ensures forall k :: i <= k < j ==> InClass(s[k], cls)
    ensures j < |s| ==> !InClass(s[j], cls)
    decreases |s| - i
  {
    if i < |s| && InClass(s[i], cls) then SkipWhile(s, i + 1, cls) else i
  }

  /** The start of the run of `cls` characters that ends at `j`, not going
      below `lo`. */
  function SkipBackWhile(s: string, lo: nat, j: nat, cls: CharClass): (k: nat)
    requires lo <= j <= |s|
    ensures lo <= k <= j
    ensures forall m :: k <= m < j ==> InClass(s[m], cls)
    ensures lo < k ==> !InClass(s[k - 1], cls)
    decreases j
  {
    if lo < j && InClass(s[j - 1], cls) then SkipBackWhile(s, lo, j - 1, cls) else j
  }

  // ---------------------------------------------------------------------
  // Trimming

  /** Removes leading and trailing `cls` characters: the result is the
      slice of the input after the leading run, it neither starts nor ends
      with such a character, and everything cut off on either side was
      one. */
  function Trim(s: string, cls: CharClass): (r: string)
    ensures var lo := SkipWhile(s, 0, cls);
            lo + |r| <= |s| && r == s[lo..lo + |r|]
            && (forall i :: lo + |r| <= i < |s| ==> InClass(s[i], cls))
    ensures r != [] ==> !InClass(r[0], cls) && !InClass(r[|r| - 1], cls)
  {
    var lo := SkipWhile(s, 0, cls);
    s[lo..SkipBackWhile(s, lo, |s|, cls)]
  }

  /** Python str.strip() with no argument. */
  function PyStrip(s: string): (r: string)
    ensures r != [] ==> !IsPySpace(r[0]) && !IsPySpace(r[|r| - 1])
    ensures |r| <= |s|
  {
    Trim(s, PyBlank)
  }

  /** JavaScript String.prototype.trim(). */
  function JsTrim(s: string): (r: string)
    ensures r != [] ==> !IsJsSpace(r[0]) && !IsJsSpace(r[|r| - 1])
    ensures |r| <= |s|
  {
    Trim(s, JsBlank)
  }

  /** Emptiness after trimming holds exactly for all-blank strings. */
  lemma TrimEmptyIff(s: string, cls: CharClass)
    ensures Trim(s, cls) == [] <==> forall i :: 0 <= i < |s| ==> InClass(s[i], cls)
  {
    var lo := SkipWhile(s, 0, cls);
    if lo < |s| {
      assert !InClass(s[lo], cls);
      assert SkipBackWhile(s, lo, |s|, cls) > lo;
    }
  }

  /** Trimming a string that neither starts nor ends with a `cls` character
      gives it back unchanged; so trimming is idempotent. */
  lemma TrimUnpadded(s: string, cls: CharClass)
    requires s != [] ==> !InClass(s[0], cls) && !InClass(s[|s| - 1], cls)
    ensures Trim(s, cls) == s
  {
    if s != [] {
      assert SkipWhile(s, 0, cls) == 0;
      assert SkipBackWhile(s, 0, |s|, cls) == |s|;
    }
  }

  /** A `cls` character in front of an unpadded string is trimmed away. */
  lemma TrimLeading(c: char, x: string, cls: CharClass)
    requires InClass(c, cls)
    requires x != [] ==> !InClass(x[0], cls) && !InClass(x[|x| - 1], cls)
    ensures Trim([c] + x, cls) == x
  {
    var s := [c] + x;
    assert s[0] == c && s[1..] == x;
    assert x != [] ==> s[1] == x[0] && s[|s| - 1] == x[|x| - 1];
    assert SkipWhile(s, 1, cls) == 1;
    assert SkipWhile(s, 0, cls) == 1;
    assert SkipBackWhile(s, 1, |s|, cls) == |s|;
  }

  lemma TrimIdempotent(s: string, cls: CharClass)
    ensures Trim(Trim(s, cls), cls) == Trim(s, cls)
  {
    TrimUnpadded(Trim(s, cls), cls);
  }

  // ---------------------------------------------------------------------
  // Searching

  /** `sub` occurs in `s` starting at index k. */
  predicate OccursAt(s: string, sub: string, k: nat)
  {
    k + |sub| <= |s| && s[k..k + |sub|] == sub
  }

  /** The first occurrence of `sub` in `s` at or after `from` (Python
      str.find with a start, JavaScript indexOf). */
  function IndexOf(s: string, sub: string, from: nat): (r: Option<nat>)
    ensures r.Some? ==> from <= r.value && OccursAt(s, sub, r.value)
    ensures r.Some? ==> forall j :: from <= j < r.value ==> !OccursAt(s, sub, j)
    ensures r.None? ==> forall j :: from <= j ==> !OccursAt(s, sub, j)
    decreases |s| - from
  {
    if from + |sub| > |s| then None
    else if s[from..from + |sub|] == sub then Some(from)
    else IndexOf(s, sub, from + 1)
  }

  /** Python `sub in s`, JavaScript s.includes(sub). */
  predicate Contains(s: string, sub: string)
  {
    IndexOf(s, sub, 0).Some?
  }

  lemma ContainsIff(s: string, sub: string)
    ensures Contains(s, sub) <==> exists k :: OccursAt(s, sub, k)
  {
  }

  /** Every string contains the empty string. */
  lemma ContainsEmpty(s: string)
    ensures Contains(s, "")
  {
    assert OccursAt(s, "", 0);
  }

  predicate StartsWith(s: string, prefix: string)
  {
    |prefix| <= |s| && s[..|prefix|] == prefix
  }

  predicate EndsWith(s: string, suffix: string)
  {
    |suffix| <= |s| && s[|s| - |suffix|..] == suffix
  }

  /** A text placed between two others occurs where the first one ends. */
  lemma InfixOccurs(a: string, m: string, b: string)
    ensures OccursAt(a + m + b, m, |a|)
    ensures Contains(a + m + b, m)
  {
    assert (a + m + b)[|a|..|a| + |m|] == m;
    assert OccursAt(a + m + b, m, |a|);
  }

  /** Where the pieces of a four-part text lie. */
  lemma Layout4(a: string, b: string, c: string, d: string)
    ensures StartsWith(a + b + c + d, a) && StartsWith(a + b + c + d, a + b)
    ensures Contains(a + b + c + d, c)
    ensures EndsWith(a + b + c + d, d) && EndsWith(a + b + c + d, b + c + d)
  {
    assert (a + b + c + d)[..|a|] == a;
    assert (a + b + c + d)[..|a + b|] == a + b;
    InfixOccurs(a + b, c, d);
  }

  /** Where the first part and the last three parts of a five-part text
      lie. */
  lemma Layout5(a: string, b: string, c: string, d: string, e: string)
    ensures StartsWith(a + b + c + d + e, a)
    ensures EndsWith(a + b + c + d + e, c + d + e)
  {
    assert (a + b + c + d + e)[..|a|] == a;
    assert (a + b + c + d + e)[|a + b|..] == c + d + e;
  }

  /** A piece of the second or fourth part of a five-part text occurs in
      the text. */
  lemma ContainsPiece(x0: string, x1: string, x2: string, x3: string, x4: string, p: string, m: string, q: string)
    requires x1 == p + m + q || x3 == p + m + q
    ensures Contains(x0 + x1 + x2 + x3 + x4, m)
  {
    if x1 == p + m + q {
      assert x0 + x1 + x2 + x3 + x4 == (x0 + p) + m + (q + x2 + x3 + x4);
      InfixOccurs(x0 + p, m, q + x2 + x3 + x4);
    } else {
      assert x0 + x1 + x2 + x3 + x4 == (x0 + x1 + x2 + p) + m + (q + x4);
      InfixOccurs(x0 + x1 + x2 + p, m, q + x4);
    }
  }

  /** Where the field lines of an eleven-part text lie. The text is built
      left to right, so each fact is carried over one appended piece at a
      time. */
  lemma Layout11(x0: string, x1: string, x2: string, x3: string, x4: string, x5: string,
                 x6: string, x7: string, x8: string, x9: string, x10: string)
    ensures var s := x0 + x1 + x2 + x3 + x4 + x5 + x6 + x7 + x8 + x9 + x10;
            StartsWith(s, x0 + x1)
            && Contains(s, x1 + x2 + x3) && Contains(s, x3 + x4 + x5) && Contains(s, x5 + x6 + x7) && Contains(s, x7 + x8 + x9)
            && EndsWith(s, x9 + x10)
  {
    var p2 := x0 + x1 + x2;
    var p5 := p2 + x3 + x4 + x5;
    var p7 := p5 + x6 + x7;
    var p9 := p7 + x8 + x9;
    PrefixAppend(x0 + x1, x2, x0 + x1);
    PrefixAppend(p2, x3, x0 + x1);
    PrefixAppend(p2 + x3, x4, x0 + x1);
    PrefixAppend(p2 + x3 + x4, x5, x0 + x1);
    PrefixAppend(p5, x6, x0 + x1);
    PrefixAppend(p5 + x6, x7, x0 + x1);
    PrefixAppend(p7, x8, x0 + x1);
    PrefixAppend(p7 + x8, x9, x0 + x1);
    PrefixAppend(p9, x10, x0 + x1);
    EndsWithThree(x0, x1, x2, x3);
    ContainsAppend(p2 + x3, x4, x1 + x2 + x3);
    ContainsAppend(p2 + x3 + x4, x5, x1 + x2 + x3);
    ContainsAppend(p5, x6, x1 + x2 + x3);
    ContainsAppend(p5 + x6, x7, x1 + x2 + x3);
    ContainsAppend(p7, x8, x1 + x2 + x3);
    ContainsAppend(p7 + x8, x9, x1 + x2 + x3);
    ContainsAppend(p9, x10, x1 + x2 + x3);
    EndsWithThree(p2, x3, x4, x5);
    ContainsAppend(p5, x6, x3 + x4 + x5);
    ContainsAppend(p5 + x6, x7, x3 + x4 + x5);
    ContainsAppend(p7, x8, x3 + x4 + x5);
    ContainsAppend(p7 + x8, x9, x3 + x4 + x5);
    ContainsAppend(p9, x10, x3 + x4 + x5);
    EndsWithThree(p2 + x3 + x4, x5, x6, x7);
    ContainsAppend(p7, x8, x5 + x6 + x7);
    ContainsAppend(p7 + x8, x9, x5 + x6 + x7);
    ContainsAppend(p9, x10, x5 + x6 + x7);
    EndsWithThree(p5 + x6, x7, x8, x9);
    ContainsAppend(p9, x10, x7 + x8 + x9);
    EndsWithTwo(p7 + x8, x9, x10);
  }

  /** The last three pieces of a text occur in it together. */
  lemma EndsWithThree(a: string, x: string, y: string, z: string)
    ensures Contains(a + x + y + z, x + y + z)
  {
    assert a + x + y + z == a + (x + y + z) + "";
    InfixOccurs(a, x + y + z, "");
  }

  lemma EndsWithTwo(a: string, x: string, y: string)
    ensures EndsWith(a + x + y, x + y)
  {
    assert (a + x + y)[|a|..] == x + y;
  }

  lemma PrefixAppend(s: string, t: string, pre: string)
    requires StartsWith(s, pre)
    ensures StartsWith(s + t, pre)
  {
    assert (s + t)[..|pre|] == s[..|pre|];
  }

  lemma ContainsAppend(s: string, t: string, m: string)
    requires Contains(s, m)
    ensures Contains(s + t, m)
  {
    var k := IndexOf(s, m, 0).value;
    assert (s + t)[k..k + |m|] == s[k..k + |m|];
    assert OccursAt(s + t, m, k);
  }

  /** The last index of `c` in `s`. */
  function LastIndexOfChar(s: string, c: char): (r: Option<nat>)
    ensures r.Some? ==> r.value < |s| && s[r.value] == c
                        && forall j :: r.value < j < |s| ==> s[j] != c
    ensures r.None? ==> c !in s
  {
    if s == [] then None
    else if s[|s| - 1] == c then Some(|s| - 1)
    else LastIndexOfChar(s[..|s| - 1], c)
  }

  /** `xs` can be had from `ys` by deleting elements. */
  predicate Subsequence<T(==)>(xs: seq<T>, ys: seq<T>)
    decreases |ys|
  {
    xs == [] || (ys != [] && (if xs[0] == ys[0] then Subsequence(xs[1..], ys[1..]) else Subsequence(xs, ys[1..])))
  }

  /** Putting an element in front of the longer sequence keeps a
      subsequence. */
  lemma {:induction false} SubsequenceCons<T>(xs: seq<T>, y: T, ys: seq<T>)
    requires Subsequence(xs, ys)
    ensures Subsequence(xs, [y] + ys)
    decreases |ys|, 1
  {
    if xs != [] && xs[0] == y {
      // greedy matching takes y; what is left of xs is still in ys
      assert ([y] + ys)[1..] == ys;
      SubsequenceTail(xs, ys);
    } else {
      assert ([y] + ys)[1..] == ys;
    }
  }

  /** Dropping the first element keeps a subsequence. */
  lemma {:induction false} SubsequenceTail<T>(xs: seq<T>, ys: seq<T>)
    requires xs != [] && Subsequence(xs, ys)
    ensures Subsequence(xs[1..], ys)
    decreases |ys|, 0
  {
    if xs[0] == ys[0] {
      SubsequenceCons(xs[1..], ys[0], ys[1..]);
      assert [ys[0]] + ys[1..] == ys;
    } else {
      SubsequenceTail(xs, ys[1..]);
      SubsequenceCons(xs[1..], ys[0], ys[1..]);
      assert [ys[0]] + ys[1..] == ys;
    }
  }

  /** Python list.index for an element that may be absent: the first
      position holding x. */
  function IndexOfElem<T(==)>(xs: seq<T>, x: T): (r: Option<nat>)
    ensures r.Some? ==> r.value < |xs| && xs[r.value] == x && x !in xs[..r.value]
    ensures r.None? <==> x !in xs
  {
    if xs == [] then None
    else if xs[0] == x then Some(0)
    else
      match IndexOfElem(xs[1..], x)
      case None => None
      case Some(i) =>
        assert xs[..i + 1] == [xs[0]] + xs[1..][..i];
        Some(i + 1)
  }

  /** Python `xs[:n]` for n >= 0. */
  function Take<T>(xs: seq<T>, n: nat): (r: seq<T>)
    ensures |r| == if n <= |xs| then n else |xs|
    ensures r == xs[..|r|]
  {
    if n <= |xs| then xs[..n] else xs
  }

  function CountChar(s: string, c: char): nat
  {
    if s == [] then 0 else (if s[0] == c then 1 else 0) + CountChar(s[1..], c)
  }

  /** Counting distributes over concatenation. */
  lemma {:induction false} CountCharAppend(a: string, b: string, c: char)
    ensures CountChar(a + b, c) == CountChar(a, c) + CountChar(b, c)
  {
    if a == [] {
      assert a + b == b;
    } else {
      CountCharAppend(a[1..], b, c);
      assert (a + b)[0] == a[0];
      assert (a + b)[1..] == a[1..] + b;
    }
  }

  /** "".join(parts): the pieces one after the other. */
  function Concat(parts: seq<string>): string
  {
    if parts == [] then "" else parts[0] + Concat(parts[1..])
  }

  /** The concatenation holds each piece between the pieces before it and
      the pieces after it. */
  lemma {:induction false} ConcatSplit(parts: seq<string>, k: nat)
    requires k < |parts|
    ensures Concat(parts) == Concat(parts[..k]) + parts[k] + Concat(parts[k + 1..])
  {
    if k == 0 {
      assert parts[..0] == [];
    } else {
      ConcatSplit(parts[1..], k - 1);
      assert parts[..k][1..] == parts[1..][..k - 1];
      assert parts[1..][k..] == parts[k + 1..];
    }
  }

  /** Appending one more piece appends its text. */
  lemma {:induction false} ConcatSnoc(parts: seq<string>, x: string)
    ensures Concat(parts + [x]) == Concat(parts) + x
  {
    if parts == [] {
      assert [] + [x] == [x];
    } else {
      assert (parts + [x])[1..] == parts[1..] + [x];
      ConcatSnoc(parts[1..], x);
    }
  }

  /** When every piece holds the character exactly once, the whole holds
      it once per piece. */
  lemma {:induction false} ConcatCount(parts: seq<string>, c: char)
    requires forall k :: 0 <= k < |parts| ==> CountChar(parts[k], c) == 1
    ensures CountChar(Concat(parts), c) == |parts|
  {
    if parts != [] {
      ConcatCount(parts[1..], c);
      CountCharAppend(parts[0], Concat(parts[1..]), c);
    }
  }

  /** A character that does not occur is counted zero times. */
  lemma {:induction false} CountCharAbsent(s: string, c: char)
    requires c !in s
    ensures CountChar(s, c) == 0
  {
    if s != [] {
      assert forall x :: x in s[1..] ==> x in s;
      CountCharAbsent(s[1..], c);
    }
  }

  // ---------------------------------------------------------------------
  // Splitting and joining

  /** Python s.split(sep) for a one-character separator: one more piece than
      there are separators, and no piece contains the separator. */
  function SplitOn(s: string, sep: char): (r: seq<string>)
    ensures |r| == CountChar(s, sep) + 1
    ensures forall k :: 0 <= k < |r| ==> sep !in r[k]
  {
    if s == [] then [""]
    else if s[0] == sep then [""] + SplitOn(s[1..], sep)
    else
      var rest := SplitOn(s[1..], sep);
      [[s[0]] + rest[0]] + rest[1..]
  }

  /** str.join: the pieces with `sep` between consecutive ones. */
  function Join(parts: seq<string>, sep: string): string
  {
    if parts == [] then ""
    else if |parts| == 1 then parts[0]
    else parts[0] + sep + Join(parts[1..], sep)
  }

  /** Every piece of a split is made of characters of the input. */
  lemma {:induction false} SplitOnChars(s: string, sep: char, i: nat)
    requires i < |SplitOn(s, sep)|
    ensures forall c :: c in SplitOn(s, sep)[i] ==> c in s
  {
    if s != [] {
      var rest := SplitOn(s[1..], sep);
      assert forall c :: c in s[1..] ==> c in s;
      if s[0] == sep {
        if i > 0 {
          SplitOnChars(s[1..], sep, i - 1);
        }
      } else if i == 0 {
        SplitOnChars(s[1..], sep, 0);
      } else {
        SplitOnChars(s[1..], sep, i);
      }
    }
  }

  /** The split of a text that starts with the separator. */
  lemma SplitOnConsSep(t: string, sep: char)
    ensures SplitOn([sep] + t, sep) == [""] + SplitOn(t, sep)
  {
    assert ([sep] + t)[0] == sep && ([sep] + t)[1..] == t;
  }

  /** The split of a text that starts with another character. */
  lemma SplitOnConsOther(c: char, t: string, sep: char)
    requires c != sep
    ensures SplitOn([c] + t, sep) == [[c] + SplitOn(t, sep)[0]] + SplitOn(t, sep)[1..]
  {
    assert ([c] + t)[0] == c && ([c] + t)[1..] == t;
  }

  /** A separator splits the text into the pieces before it and the pieces
      after it. */
  lemma {:induction false} SplitOnAppend(a: string, sep: char, b: string)
    ensures SplitOn(a + [sep] + b, sep) == SplitOn(a, sep) + SplitOn(b, sep)
  {
    if a == [] {
      assert a + [sep] + b == [sep] + b;
      SplitOnConsSep(b, sep);
    } else {
      SplitOnAppend(a[1..], sep, b);
      SplitOnAppendCons(a[0], a[1..], sep, b);
      assert a == [a[0]] + a[1..];
    }
  }

  /** The inductive step of SplitOnAppend. */
  lemma SplitOnAppendCons(c: char, a: string, sep: char, b: string)
    requires SplitOn(a + [sep] + b, sep) == SplitOn(a, sep) + SplitOn(b, sep)
    ensures SplitOn([c] + a + [sep] + b, sep) == SplitOn([c] + a, sep) + SplitOn(b, sep)
  {
    var t := a + [sep] + b;
    assert [c] + a + [sep] + b == [c] + t;
    var r1 := SplitOn(a, sep);
    var r2 := SplitOn(b, sep);
    if c == sep {
      SplitOnConsSep(t, sep);
      SplitOnConsSep(a, sep);
      ConsAppend("", r1, r2);
    } else {
      SplitOnConsOther(c, t, sep);
      SplitOnConsOther(c, a, sep);
      HeadTailAppend(r1, r2);
      ConsAppend([c] + r1[0], r1[1..], r2);
    }
  }

  /** Prepending an element re-associates. */
  lemma ConsAppend<T>(x: T, p: seq<T>, q: seq<T>)
    ensures [x] + (p + q) == [x] + p + q
  {
  }

  /** The head and tail of a concatenation with a non-empty front. */
  lemma HeadTailAppend<T>(p: seq<T>, q: seq<T>)
    requires p != []
    ensures (p + q)[0] == p[0] && (p + q)[1..] == p[1..] + q
  {
  }

  /** Text without the separator is a single piece. */
  lemma {:induction false} SplitOnNone(s: string, sep: char)
    requires sep !in s
    ensures SplitOn(s, sep) == [s]
  {
    if s != [] {
      assert sep !in s[1..] by {
        assert forall c :: c in s[1..] ==> c in s;
      }
      SplitOnNone(s[1..], sep);
      assert [s[0]] + s[1..] == s;
    }
  }

  /** Splitting on a character and joining with it gives the input back. */
  lemma {:induction false} JoinSplitOn(s: string, sep: char)
    ensures Join(SplitOn(s, sep), [sep]) == s
  {
    if s == [] {
    } else if s[0] == sep {
      JoinSplitOn(s[1..], sep);
      var rest := SplitOn(s[1..], sep);
      assert SplitOn(s, sep) == [""] + rest;
      assert ([""] + rest)[1..] == rest;
    } else {
      JoinSplitOn(s[1..], sep);
      var rest := SplitOn(s[1..], sep);
      var r := [[s[0]] + rest[0]] + rest[1..];
      assert SplitOn(s, sep) == r;
      if |rest| == 1 {
        assert Join(r, [sep]) == [s[0]] + rest[0];
      } else {
        assert r[1..] == rest[1..];
        assert Join(rest, [sep]) == rest[0] + [sep] + Join(rest[1..], [sep]);
        assert Join(r, [sep]) == [s[0]] + rest[0] + [sep] + Join(rest[1..], [sep]);
      }
    }
  }

  /** Python s.split() with no argument, from index i on: the maximal runs
      of non-blank characters, in order; no word is empty and no word holds
      a blank. */
  function PySplitFrom(s: string, i: nat): (r: seq<string>)
    requires i <= |s|
    ensures forall k :: 0 <= k < |r| ==> r[k] != []
    ensures forall k, m :: 0 <= k < |r| && 0 <= m < |r[k]| ==> !IsPySpace(r[k][m])
    decreases |s| - i
  {
    var start := SkipWhile(s, i, PyBlank);
    if start == |s| then []
    else
      var stop := SkipWhile(s, start, PyWordChar);
      assert forall m :: start <= m < stop ==> !IsPySpace(s[m]);
      [s[start..stop]] + PySplitFrom(s, stop)
  }

  function PySplit(s: string): (r: seq<string>)
    ensures forall k :: 0 <= k < |r| ==> r[k] != []
    ensures forall k, m :: 0 <= k < |r| && 0 <= m < |r[k]| ==> !IsPySpace(r[k][m])
  {
    PySplitFrom(s, 0)
  }

  // ---------------------------------------------------------------------
  // Decimal numbers

  function DigitChar(d: nat): (c: char)
    requires d < 10
    ensures IsAsciiDigit(c)
  {
    (d as int + '0' as int) as char
  }

  /** Python str(n) / JavaScript `${n}` for a non-negative integer. */
  function NatToString(n: nat): (r: string)
    ensures r != []
    ensures forall i :: 0 <= i < |r| ==> IsAsciiDigit(r[i])
  {
    if n < 10 then [DigitChar(n)] else NatToString(n / 10) + [DigitChar(n % 10)]
  }

  /** Python str(i) / JavaScript `${i}` for any integer. */
  function IntToString(i: int): (r: string)
    ensures r != []
  {
    if i < 0 then "-" + NatToString(-i) else NatToString(i)
  }

  /** Python int(s) for a string of ASCII digits. */
  function DigitsValue(s: string): nat
    requires forall i :: 0 <= i < |s| ==> IsAsciiDigit(s[i])
  {
    if s == [] then 0
    else
      assert IsAsciiDigit(s[|s| - 1]);
      DigitsValue(s[..|s| - 1]) * 10 + (s[|s| - 1] as int - '0' as int)
  }

  /** Reading back what NatToString printed gives the number. */
  lemma {:induction false} DigitsValueOfNatToString(n: nat)
    ensures DigitsValue(NatToString(n)) == n
  {
    if n >= 10 {
      DigitsValueOfNatToString(n / 10);
      var s := NatToString(n);
      assert s[..|s| - 1] == NatToString(n / 10);
    }
  }

  /** Distinct numbers print differently. */
  lemma NatToStringInjective(m: nat, n: nat)
    requires NatToString(m) == NatToString(n)
    ensures m == n
  {
    DigitsValueOfNatToString(m);
    DigitsValueOfNatToString(n);
  }
}
