/**
 String operations the controller relies on: PHP's `str_replace(',', '.', s)`
 on a rate, and the line and field structure of the exported CSV text.
 */
module Text {

  /** `str_replace(',', '.', s)`: every comma becomes a point, nothing else
      changes. */
  function CommaToDot(s: string): (r: string)
    ensures |r| == |s|
    ensures forall i :: 0 <= i < |s| ==> r[i] == (if s[i] == ',' then '.' else s[i])
  {
    if s == [] then [] else [if s[0] == ',' then '.' else s[0]] + CommaToDot(s[1..])
  }

  // The four lemmas below follow from the pointwise ensures of CommaToDot.

  lemma CommaToDotLeavesNoComma(s: string)
    ensures ',' !in CommaToDot(s)
  {
  }

  /** A string without commas is left as it is. */
  lemma CommaToDotIdentity(s: string)
    requires ',' !in s
    ensures CommaToDot(s) == s
  {
  }

  lemma CommaToDotIdempotent(s: string)
    ensures CommaToDot(CommaToDot(s)) == CommaToDot(s)
  {
  }

  /** Two strings that differ only in using a comma or a point at the same
      positions are the same after the substitution. */
  lemma CommaToDotIgnoresSeparator(a: string, b: string)
    requires |a| == |b|
    requires forall i :: 0 <= i < |a| ==> a[i] == b[i] || (a[i] in ",." && b[i] in ",.")
    ensures CommaToDot(a) == CommaToDot(b)
  {
  }

  /** Position of the first `c` in `s`, or `|s|` when there is none. */
  function FirstIndex(s: string, c: char): (k: nat)
    ensures k <= |s|
    ensures k < |s| ==> s[k] == c
    ensures forall j :: 0 <= j < k ==> s[j] != c
  {
    if s == [] then 0
    else if s[0] == c then 0
    else 1 + FirstIndex(s[1..], c)
  }

  /** Newline-terminated text made of the given lines. */
  function Unlines(lines: seq<string>): string
  {
    if lines == [] then "" else lines[0] + "\n" + Unlines(lines[1..])
  }

  /** Cuts text at each newline; a trailing piece without a newline is kept
      as a last line. */
  function SplitLines(s: string): seq<string>
    decreases |s|
  {
    if s == [] then []
    else
      var k := FirstIndex(s, '\n');
      if k == |s| then [s] else [s[..k]] + SplitLines(s[k + 1..])
  }

  lemma {:induction false} UnlinesSnoc(lines: seq<string>, last: string)
    ensures Unlines(lines + [last]) == Unlines(lines) + last + "\n"
  {
    if lines == [] {
      assert lines + [last] == [last];
    } else {
      assert (lines + [last])[1..] == lines[1..] + [last];
      UnlinesSnoc(lines[1..], last);
    }
  }

  /** Splitting joined lines gives the lines back, when none holds a newline. */
  lemma {:induction false} SplitLinesUnlines(lines: seq<string>)
    requires forall i :: 0 <= i < |lines| ==> '\n' !in lines[i]
    ensures SplitLines(Unlines(lines)) == lines
  {
    if lines != [] {
      var head, rest := lines[0], Unlines(lines[1..]);
      var s := Unlines(lines);
      assert s == head + "\n" + rest;
      var k := FirstIndex(s, '\n');
      assert s[|head|] == '\n';
      assert k == |head|;
      assert s[..k] == head;
      assert s[k + 1..] == rest;
      SplitLinesUnlines(lines[1..]);
    }
  }

  /** Cuts a line at its first `;` into the part before and the part after;
      a line without `;` is all first field. */
  function SplitField(line: string): (string, string)
  {
    var k := FirstIndex(line, ';');
    if k == |line| then (line, "") else (line[..k], line[k + 1..])
  }

  lemma SplitFieldJoin(first: string, second: string)
    requires ';' !in first
    ensures SplitField(first + ";" + second) == (first, second)
  {
    var line := first + ";" + second;
    var k := FirstIndex(line, ';');
    assert line[|first|] == ';';
    assert k == |first|;
    assert line[..k] == first;
    assert line[k + 1..] == second;
  }

  ghost predicate OccursAt(s: string, sub: string, k: int)
  {
    0 <= k && k + |sub| <= |s| && s[k..k + |sub|] == sub
  }

  /** `sub` appears somewhere in `s`. */
  ghost predicate Contains(s: string, sub: string)
  {
    exists k :: OccursAt(s, sub, k)
  }
}
