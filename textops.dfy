/** The Python string operations the request engine relies on:
    `str.split(sep)`, `str.split(sep, 1)`, `str.strip()` and `str.upper()`. */
module TextOps {
  import opened Values

  /** Glue `parts` back together with `sep` between neighbours. */
  function Join(parts: seq<string>, sep: char): string
  {
    if parts == [] then []
    else if |parts| == 1 then parts[0]
    else parts[0] + [sep] + Join(parts[1..], sep)
  }

  /** `s.split(sep)`: the pieces between separators, an empty piece for
      every pair of adjacent separators and at either end.  The split is
      the unique separator-free list that joins back to `s`. */
  function Split(s: string, sep: char): (parts: seq<string>)
    ensures |parts| >= 1
    ensures forall i :: 0 <= i < |parts| ==> sep !in parts[i]
    ensures Join(parts, sep) == s
  {
    if s == [] then [[]]
    else
      var rest := Split(s[1..], sep);
      if s[0] == sep then
        assert s == [] + [sep] + Join(rest, sep);
        [[]] + rest
      else
        var parts := [[s[0]] + rest[0]] + rest[1..];
        assert parts[1..] == rest[1..];
        assert Join(parts, sep) == s by {
          if |rest| == 1 {
            assert Join(rest, sep) == rest[0];
          } else {
            assert Join(rest, sep) == rest[0] + [sep] + Join(rest[1..], sep);
          }
        }
        parts
  }

  /** Separator-free lists are determined by their join. */
  lemma {:induction false} JoinInjective(p: seq<string>, q: seq<string>, sep: char)
    requires |p| >= 1 && |q| >= 1
    requires forall i :: 0 <= i < |p| ==> sep !in p[i]
    requires forall i :: 0 <= i < |q| ==> sep !in q[i]
    requires Join(p, sep) == Join(q, sep)
    ensures p == q
    decreases |p|
  {
    var s := Join(p, sep);
    if |p| > 1 && |q| > 1 {
      var a, b := p[0], q[0];
      assert s == a + [sep] + Join(p[1..], sep);
      assert s == b + [sep] + Join(q[1..], sep);
      assert s[|a|] == sep && s[|b|] == sep;
      assert forall j :: 0 <= j < |a| ==> s[j] == a[j];
      assert forall j :: 0 <= j < |b| ==> s[j] == b[j];
      assert |a| == |b|;
      assert a == s[..|a|] == b;
      assert Join(p[1..], sep) == s[|a| + 1..] == Join(q[1..], sep);
      JoinInjective(p[1..], q[1..], sep);
      assert p == [a] + p[1..] && q == [b] + q[1..];
    }
  }

  /** `Split` gives the only separator-free list that joins back to `s`. */
  lemma SplitUnique(parts: seq<string>, s: string, sep: char)
    requires |parts| >= 1 && Join(parts, sep) == s
    requires forall i :: 0 <= i < |parts| ==> sep !in parts[i]
    ensures Split(s, sep) == parts
  {
    JoinInjective(Split(s, sep), parts, sep);
  }

  /** `line.split(sep, 1)` for a line holding `sep`: the text before the
      first separator and everything after it; None when there is none. */
  function SplitFirst(line: string, sep: char): (r: Option<(string, string)>)
    ensures r.Some? <==> sep in line
    ensures r.Some? ==> sep !in r.value.0 && line == r.value.0 + [sep] + r.value.1
  {
    if line == [] then None
    else if line[0] == sep then
      assert line == [] + [sep] + line[1..];
      Some(([], line[1..]))
    else
      match SplitFirst(line[1..], sep)
      case None => None
      case Some((k, v)) =>
        assert line == [line[0]] + k + [sep] + v;
        Some(([line[0]] + k, v))
  }

  /** The characters Python's `str.isspace` accepts. */
  predicate IsSpace(c: char)
  {
    || '\t' <= c <= '\r'                    // tab, line feed, vertical tab, form feed, carriage return
    || '\U{1C}' <= c <= ' '                  // file, group, record and unit separators; space
    || c == '\U{85}' || c == '\U{A0}'        // next line; no-break space
    || c == '\U{1680}'                       // Ogham space mark
    || '\U{2000}' <= c <= '\U{200A}'         // en quad .. hair space
    || c == '\U{2028}' || c == '\U{2029}'    // line and paragraph separators
    || c == '\U{202F}' || c == '\U{205F}'    // narrow no-break space; medium mathematical space
    || c == '\U{3000}'                       // ideographic space
  }

  /** The end of the run of space in `s` that starts at `i`: the first
      index at or after `i` that holds a non-space, or `|s|`. */
  function SpaceAfter(s: string, i: nat): (j: nat)
    requires i <= |s|
    ensures i <= j <= |s|
    ensures forall x :: i <= x < j ==> IsSpace(s[x])
    ensures j < |s| ==> !IsSpace(s[j])
    decreases |s| - i
  {
    if i == |s| || !IsSpace(s[i]) then i else SpaceAfter(s, i + 1)
  }

  /** The start of the run of space in `s` that ends at `j`, looking no
      further back than `lo`. */
  function SpaceBefore(s: string, lo: nat, j: nat): (i: nat)
    requires lo <= j <= |s|
    ensures lo <= i <= j
    ensures forall x :: i <= x < j ==> IsSpace(s[x])
    ensures lo < i ==> !IsSpace(s[i - 1])
    decreases j
  {
    if j == lo || !IsSpace(s[j - 1]) then j else SpaceBefore(s, lo, j - 1)
  }

  /** `s.strip()`: `s` without its leading and trailing space.  What is
      left is the run of `s` that starts at `LeadingSpace(s)`, everything
      before it and everything after it is space, and it neither starts
      nor ends with space. */
  function Strip(s: string): (r: string)
    ensures var k := LeadingSpace(s);
      && k + |r| <= |s|
      && r == s[k..k + |r|]
      && (forall i :: 0 <= i < k ==> IsSpace(s[i]))
      && (forall i :: k + |r| <= i < |s| ==> IsSpace(s[i]))
    ensures r == [] || (!IsSpace(r[0]) && !IsSpace(r[|r| - 1]))
  {
    var a := LeadingSpace(s);
    var b := SpaceBefore(s, a, |s|);
    s[a..b]
  }

  /** How many space characters `s` starts with. */
  function LeadingSpace(s: string): (k: nat)
    ensures k <= |s|
  {
    SpaceAfter(s, 0)
  }

  /** A string that neither starts nor ends with space is its own strip,
      so stripping twice is stripping once. */
  lemma StripFixed(s: string)
    requires s == [] || (!IsSpace(s[0]) && !IsSpace(s[|s| - 1]))
    ensures Strip(s) == s
  {
    assert LeadingSpace(s) == 0;
    assert SpaceBefore(s, 0, |s|) == |s|;
  }

  lemma StripIdempotent(s: string)
    ensures Strip(Strip(s)) == Strip(s)
  {
    StripFixed(Strip(s));
  }

  /** ASCII part of `str.upper` for one character. */
  function UpperChar(c: char): (u: char)
    ensures 'a' <= c <= 'z' ==> 'A' <= u <= 'Z' && u as int == c as int - 32
    ensures !('a' <= c <= 'z') ==> u == c
  {
    if 'a' <= c <= 'z' then (c as int - 32) as char else c
  }

  /** `s.upper()` on ASCII letters: each character is mapped on its own. */
  function Upper(s: string): (u: string)
    ensures |u| == |s|
    ensures forall i :: 0 <= i < |s| ==> u[i] == UpperChar(s[i])
  {
    if s == [] then [] else [UpperChar(s[0])] + Upper(s[1..])
  }
}
