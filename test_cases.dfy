/** The test-case file of the API test script: the claims it reads from a
    line-oriented file, and the file name each result is saved under. */
module TestCases {

  import opened Common
  import opened Text

  /** What one line of the file contributes: after stripping, a line that
      starts with '-' is a claim, the rest of it stripped again; any other
      line (blank, a '#' comment, plain text) contributes nothing. */
  function LineClaim(line: string): (r: Option<string>)
    ensures r.Some? <==> StartsWith(PyStrip(line), "-")
    ensures r.Some? ==> |r.value| < |line|
    ensures r.Some? && r.value != [] ==> !IsPySpace(r.value[0]) && !IsPySpace(r.value[|r.value| - 1])
    ensures r.Some? ==> r.value == PyStrip(PyStrip(line)[1..])
  {
    var s := PyStrip(line);
    if StartsWith(s, "-") then Some(PyStrip(s[1..])) else None
  }

  /** Writing a claim as a "- " bullet and reading the line back gives the
      claim, whatever its length, as long as it is not padded with
      blanks. */
  lemma {:induction false} BulletRoundTrip(claim: string)
    requires claim != [] ==> !IsPySpace(claim[0]) && !IsPySpace(claim[|claim| - 1])
    ensures LineClaim("- " + claim) == Some(claim)
  {
    var line := "- " + claim;
    if claim == [] {
      assert line == ['-'] + [' '];
      assert SkipWhile(line, 0, PyBlank) == 0;
      assert SkipBackWhile(line, 0, 2, PyBlank) == 1;
      assert PyStrip(line) == "-";
      assert PyStrip(line)[1..] == [];
    } else {
      TrimUnpadded(line, PyBlank);
      assert line[1..] == [' '] + claim;
      TrimLeading(' ', claim, PyBlank);
    }
  }

  /** `xs` with the value of `o`, when there is one, appended. */
  function AppendSome<T>(xs: seq<T>, o: Option<T>): (r: seq<T>)
    ensures o.None? ==> r == xs
    ensures o.Some? ==> r == xs + [o.value]
  {
    if o.Some? then xs + [o.value] else xs
  }

  /** The values `f` gives for the elements of `xs`, in order, skipping
      the elements it gives none for. */
  function FilterMap<T, U>(xs: seq<T>, f: T -> Option<U>): (r: seq<U>)
    ensures |r| <= |xs|
  {
    if xs == [] then [] else AppendSome(FilterMap(xs[..|xs| - 1], f), f(xs[|xs| - 1]))
  }

  lemma {:induction false} FilterMapAppend<T, U>(a: seq<T>, b: seq<T>, f: T -> Option<U>)
    ensures FilterMap(a + b, f) == FilterMap(a, f) + FilterMap(b, f)
  {
    if b == [] {
      assert a + b == a;
    } else {
      var b' := b[..|b| - 1];
      var ab := a + b;
      assert ab[..|ab| - 1] == a + b';
      assert ab[|ab| - 1] == b[|b| - 1];
      FilterMapAppend(a, b', f);
      var o := f(b[|b| - 1]);
      if o.Some? {
        assert (FilterMap(a, f) + FilterMap(b', f)) + [o.value] == FilterMap(a, f) + (FilterMap(b', f) + [o.value]);
      }
    }
  }

  /** The claims of a file, line by line in file order. */
  function Claims(lines: seq<string>): (claims: seq<string>)
    ensures |claims| <= |lines|
  {
    FilterMap(lines, LineClaim)
  }

  /** Every line starting with "##" starts with "#", so the category
      branch, tested after the comment branch, is never taken. */
  lemma CategoryHeadingIsComment(s: string)
    ensures StartsWith(s, "##") ==> StartsWith(s, "#")
  {
    if StartsWith(s, "##") {
      assert s[..1] == s[..2][..1];
    }
  }

  /** read_test_cases: the loop over the file's lines, with its branches in
      the order the script tests them. */
  method ReadTestCases(lines: seq<string>) returns (claims: seq<string>)
    ensures claims == Claims(lines)
  {
    claims := [];
    for i := 0 to |lines|
      invariant claims == Claims(lines[..i])
    {
      assert lines[..i + 1][..i] == lines[..i];
      var line := PyStrip(lines[i]);
      CategoryHeadingIsComment(line);
      if line == "" {
        continue;
      }
      if StartsWith(line, "#") {
        continue;
      }
      if StartsWith(line, "##") {
        assert false;
        continue;
      }
      if StartsWith(line, "-") {
        var claim := PyStrip(line[1..]);
        claims := claims + [claim];
      }
    }
    assert lines[..|lines|] == lines;
  }

  /** Reading two pieces of a file one after the other gives the claims of
      the whole file: claims keep the order of their lines. */
  lemma ClaimsAppend(a: seq<string>, b: seq<string>)
    ensures Claims(a + b) == Claims(a) + Claims(b)
  {
    FilterMapAppend(a, b, LineClaim);
  }

  /** The claims of a single line: its claim, if it has one. Together with
      ClaimsAppend this fixes the claims of every file. */
  lemma ClaimsOfLine(line: string)
    ensures Claims([line]) == if LineClaim(line).Some? then [LineClaim(line).value] else []
  {
    assert [line][..0] == [];
  }

  /** A bare "-" is a claim of its own: the empty claim. */
  lemma BareDashIsEmptyClaim()
    ensures LineClaim("-") == Some("")
  {
    assert PyStrip("-") == "-" by {
      TrimUnpadded("-", PyBlank);
    }
    assert "-"[1..] == "";
    TrimUnpadded("", PyBlank);
  }

  // ---------------------------------------------------------------------
  // Result file names

  /** `c if c.isalnum() else "_"`. */
  function SafeChar(c: char): char
  {
    if IsAsciiAlnum(c) then c else '_'
  }

  /** The file name of a claim's result: every alphanumeric character kept,
      every other one replaced by '_', cut to its first 50 characters. */
  function SafeFilename(claim: string): (name: string)
    ensures |name| == if |claim| <= 50 then |claim| else 50
    ensures forall i :: 0 <= i < |name| ==> (IsAsciiAlnum(claim[i]) ==> name[i] == claim[i])
    ensures forall i :: 0 <= i < |name| ==> (!IsAsciiAlnum(claim[i]) ==> name[i] == '_')
  {
    Take(seq(|claim|, i requires 0 <= i < |claim| => SafeChar(claim[i])), 50)
  }

  /** A safe file name is its own safe file name. */
  lemma SafeFilenameIdempotent(claim: string)
    ensures SafeFilename(SafeFilename(claim)) == SafeFilename(claim)
  {
    var name := SafeFilename(claim);
    forall i | 0 <= i < |name|
      ensures SafeChar(name[i]) == name[i]
    {
    }
  }

  /** The length of a safe file name. */
  function Cut(n: nat): nat
  {
    if n <= 50 then n else 50
  }

  /** Two claims share a result file exactly when they are cut at the same
      length and agree before the cut once every non-alphanumeric character
      is read as '_'. */
  lemma SafeFilenameCollides(a: string, b: string)
    ensures SafeFilename(a) == SafeFilename(b) <==>
              Cut(|a|) == Cut(|b|) && forall i :: 0 <= i < Cut(|a|) ==> SafeChar(a[i]) == SafeChar(b[i])
  {
    if Cut(|a|) == Cut(|b|) && forall i :: 0 <= i < Cut(|a|) ==> SafeChar(a[i]) == SafeChar(b[i]) {
      assert forall i :: 0 <= i < Cut(|a|) ==> SafeFilename(a)[i] == SafeFilename(b)[i];
    }
  }
}
