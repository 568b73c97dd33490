/** Placeholder substitution: one left-to-right pass of the regular
    expression `\{\{([^}]+)\}\}` over a string, replacing each match
    whose name is a known variable by that variable's value. */
module Placeholders {
  import opened Values

  /** Length of the longest prefix of `s` free of `}`: what the greedy
      `[^}]+` consumes. */
  function RunLength(s: string): (n: nat)
    ensures n <= |s|
    ensures forall i :: 0 <= i < n ==> s[i] != '}'
    ensures n < |s| ==> s[n] == '}'
  {
    if s == [] || s[0] == '}' then 0 else 1 + RunLength(s[1..])
  }

  /** A placeholder name: one or more characters other than `}`. */
  predicate IsName(n: string)
  {
    n != [] && '}' !in n
  }

  /** The placeholder token for name `n`. */
  function Braced(n: string): string
  {
    "{{" + n + "}}"
  }

  /** The name of the placeholder the pattern matches at the very start
      of `s`, if any; a match is always some `Braced(n)` with `n` a name
      (see `TokenAtUnique` for the converse). */
  function TokenAt(s: string): (r: Option<string>)
    ensures r.Some? ==> IsName(r.value) && Braced(r.value) <= s
  {
    if |s| < 2 || s[0] != '{' || s[1] != '{' then None
    else
      var k := RunLength(s[2..]);
      if 1 <= k && k + 4 <= |s| && s[k + 2] == '}' && s[k + 3] == '}' then
        BracedSlice(s, k);
        Some(s[2..k + 2])
      else
        None
  }

  /** The first `k + 4` characters of a string that has `{{` before and
      `}}` after position `2 .. k + 2` are the token of that slice. */
  lemma BracedSlice(s: string, k: nat)
    requires k + 4 <= |s| && s[0] == '{' && s[1] == '{' && s[k + 2] == '}' && s[k + 3] == '}'
    ensures Braced(s[2..k + 2]) == s[..k + 4]
  {
    assert s[..k + 4] == s[..2] + s[2..k + 2] + s[k + 2..k + 4];
    assert s[..2] == "{{" && s[k + 2..k + 4] == "}}";
  }

  /** Whenever `s` begins with the token of a name, the pattern matches
      there, and with exactly that name. */
  lemma TokenAtUnique(n: string, s: string)
    requires IsName(n) && Braced(n) <= s
    ensures TokenAt(s) == Some(n)
  {
    assert s[2..] == n + "}}" + s[|n| + 4..];
    NameIsRun(n, s[2..]);
    assert s[2..|n| + 2] == n;
  }

  /** A name followed by `}` is exactly the `}`-free run at the start. */
  lemma NameIsRun(n: string, t: string)
    requires IsName(n) && n + "}}" <= t
    ensures RunLength(t) == |n|
  {
    assert forall i :: 0 <= i < |n| ==> t[i] == n[i];
    assert t[|n|] == '}';
  }

  /** What a match is replaced by: the value of a known name, or the
      whole token again for an unknown one. */
  function Expand(n: string, vars: map<string, string>): (r: string)
    ensures n in vars ==> r == vars[n]
    ensures n !in vars ==> r == Braced(n)
  {
    if n in vars then vars[n] else Braced(n)
  }

  /** The substitution pass of `re.sub`: at each position either a token
      matches, and is replaced and skipped, or one character is copied. */
  function Substitute(s: string, vars: map<string, string>): (r: string)
    ensures vars == map[] ==> r == s
    decreases |s|
  {
    if s == [] then []
    else
      match TokenAt(s)
      case Some(n) => Expand(n, vars) + Substitute(s[|n| + 4..], vars)
      case None => [s[0]] + Substitute(s[1..], vars)
  }

  /** `replace_environment_variables`: empty text or an empty variable map
      returns the text as it is; otherwise the substitution pass runs.
      The early return changes nothing: the result is always that pass. */
  function Resolve(text: string, vars: map<string, string>): (r: string)
    ensures r == Substitute(text, vars)
    ensures text == [] ==> r == []
    ensures vars == map[] ==> r == text
  {
    if text == [] || vars == map[] then
      SubstituteWithoutVariables(text);
      text
    else
      Substitute(text, vars)
  }

  /** `s` has a known variable's token at position `i`. */
  predicate KnownTokenAt(s: string, i: nat, vars: map<string, string>)
    requires i <= |s|
  {
    TokenAt(s[i..]).Some? && TokenAt(s[i..]).value in vars
  }

  /** No position of `s` starts a token. */
  predicate NoToken(s: string)
  {
    forall i :: 0 <= i < |s| ==> TokenAt(s[i..]).None?
  }

  /** A token whose name is unknown is kept verbatim: a string in which no
      token names a known variable comes back unchanged. */
  lemma {:induction false} SubstituteKeepsUnknown(s: string, vars: map<string, string>)
    requires forall i :: 0 <= i < |s| ==> !KnownTokenAt(s, i, vars)
    ensures Substitute(s, vars) == s
    decreases |s|
  {
    if s != [] {
      assert !KnownTokenAt(s, 0, vars);
      assert s[0..] == s;
      match TokenAt(s)
      case Some(n) =>
        var rest := s[|n| + 4..];
        UnknownInSuffix(s, |n| + 4, vars);
        SubstituteKeepsUnknown(rest, vars);
        TokenSplit(s, n);
      case None =>
        UnknownInSuffix(s, 1, vars);
        SubstituteKeepsUnknown(s[1..], vars);
        assert s == [s[0]] + s[1..];
    }
  }

  /** A suffix of a string without known tokens has none either. */
  lemma UnknownInSuffix(s: string, skip: nat, vars: map<string, string>)
    requires skip <= |s|
    requires forall i :: 0 <= i < |s| ==> !KnownTokenAt(s, i, vars)
    ensures forall i :: 0 <= i < |s| - skip ==> !KnownTokenAt(s[skip..], i, vars)
  {
    forall i | 0 <= i < |s| - skip ensures !KnownTokenAt(s[skip..], i, vars) {
      assert s[skip..][i..] == s[skip + i..];
      assert !KnownTokenAt(s, skip + i, vars);
    }
  }

  /** A string that starts with a token is that token and the rest. */
  lemma TokenSplit(s: string, n: string)
    requires TokenAt(s) == Some(n)
    ensures s == Braced(n) + s[|n| + 4..]
  {
    assert Braced(n) == s[..|Braced(n)|];
  }

  /** With no variables at all, substitution is the identity. */
  lemma SubstituteWithoutVariables(s: string)
    ensures Substitute(s, map[]) == s
  {
    SubstituteKeepsUnknown(s, map[]);
  }

  /** A string without any `{{name}}` token is returned unchanged. */
  lemma NoTokenUnchanged(s: string, vars: map<string, string>)
    requires NoToken(s)
    ensures Resolve(s, vars) == s
  {
    forall i | 0 <= i < |s| ensures !KnownTokenAt(s, i, vars) {
    }
    SubstituteKeepsUnknown(s, vars);
  }

  /** A token is replaced all at once by its expansion, and the scan goes
      on after the token: the inserted value is never scanned again. */
  lemma SubstituteToken(n: string, rest: string, vars: map<string, string>)
    requires IsName(n)
    ensures Substitute(Braced(n) + rest, vars) == Expand(n, vars) + Substitute(rest, vars)
  {
    var s := Braced(n) + rest;
    TokenAtUnique(n, s);
    assert s[|n| + 4..] == rest;
  }

  /** A position where no token matches is copied and the scan moves on
      by one character. */
  lemma SubstituteLiteral(c: char, rest: string, vars: map<string, string>)
    requires TokenAt([c] + rest).None?
    ensures Substitute([c] + rest, vars) == [c] + Substitute(rest, vars)
  {
    assert ([c] + rest)[1..] == rest;
  }

  /** Text free of `{` passes through and does not affect what follows. */
  lemma {:induction false} SubstituteOpenFree(v: string, x: string, vars: map<string, string>)
    requires '{' !in v
    ensures Substitute(v + x, vars) == v + Substitute(x, vars)
    decreases |v|
  {
    if v != [] {
      var tail := v[1..] + x;
      assert v + x == [v[0]] + tail;
      assert v[0] != '{';
      assert TokenAt([v[0]] + tail).None?;
      SubstituteLiteral(v[0], tail, vars);
      SubstituteOpenFree(v[1..], x, vars);
      calc {
        Substitute(v + x, vars);
        [v[0]] + Substitute(tail, vars);
        [v[0]] + (v[1..] + Substitute(x, vars));
        { assert v == [v[0]] + v[1..]; }
        v + Substitute(x, vars);
      }
    } else {
      assert v + x == x;
    }
  }

  /** A lone token is replaced by its expansion. */
  lemma SubstituteLone(n: string, vars: map<string, string>)
    requires IsName(n)
    ensures Substitute(Braced(n), vars) == Expand(n, vars)
  {
    assert Braced(n) == Braced(n) + [];
    SubstituteToken(n, [], vars);
  }

  /** An unknown placeholder stays as written. */
  lemma UnknownKept(n: string, vars: map<string, string>)
    requires IsName(n) && n !in vars
    ensures Resolve(Braced(n), vars) == Braced(n)
  {
    SubstituteLone(n, vars);
  }

  /** A known placeholder is replaced by its value, whatever the value
      holds: the value is not scanned for further placeholders. */
  lemma KnownReplaced(n: string, vars: map<string, string>)
    requires IsName(n) && n in vars
    ensures Resolve(Braced(n), vars) == vars[n]
  {
    SubstituteLone(n, vars);
  }

  /** Two placeholders around one literal character other than `{`. */
  lemma TwoTokens(a: string, c: char, b: string, vars: map<string, string>)
    requires IsName(a) && IsName(b) && c != '{'
    ensures Resolve(Braced(a) + ([c] + Braced(b)), vars) == Expand(a, vars) + ([c] + Expand(b, vars))
  {
    SubstituteToken(a, [c] + Braced(b), vars);
    SubstituteLiteral(c, Braced(b), vars);
    SubstituteLone(b, vars);
  }

  /** So substitution is not idempotent in general: when the value of `a`
      is the token of `b`, a second pass replaces it again. */
  lemma SecondPassDiffers(a: string, b: string, vars: map<string, string>)
    requires IsName(a) && IsName(b) && a in vars && b in vars
    requires vars[a] == Braced(b) && vars[b] != Braced(b)
    ensures Resolve(Resolve(Braced(a), vars), vars) != Resolve(Braced(a), vars)
  {
    KnownReplaced(a, vars);
    KnownReplaced(b, vars);
  }

  /** Nor for values free of braces: an empty value for `k` joins
      `{{a}` and the `}` after `{{k}}` into the new token `{{a}}`. */
  lemma EmptyValueJoins(a: string, k: string, vars: map<string, string>)
    requires IsName(a) && IsName(k) && '{' !in a && k in vars && vars[k] == []
    ensures Resolve(['{'] + (['{'] + (a + (['}'] + (Braced(k) + ['}'])))), vars) == Braced(a)
  {
    EmptyValueTail(k, vars);
    UnclosedPrefix(a, Braced(k) + ['}'], vars);
    BracedNested(a);
  }

  /** `Braced(n)` written as a right-nested concatenation. */
  lemma BracedNested(n: string)
    ensures Braced(n) == ['{'] + (['{'] + (n + ['}', '}']))
  {
  }

  /** `}{{k}}}` with `k` bound to the empty string becomes `}}`. */
  lemma EmptyValueTail(k: string, vars: map<string, string>)
    requires IsName(k) && k in vars && vars[k] == []
    ensures Substitute(['}'] + (Braced(k) + ['}']), vars) == ['}', '}']
  {
    assert ['}'] == ['}'] + [];
    SubstituteLiteral('}', [], vars);
    SubstituteToken(k, ['}'], vars);
    SubstituteLiteral('}', Braced(k) + ['}'], vars);
  }

  /** `{{`, a name free of `{`, then a single `}` followed by something
      other than `}`: all of it up to the `}` is copied. */
  lemma UnclosedPrefix(a: string, w: string, vars: map<string, string>)
    requires IsName(a) && '{' !in a && (w == [] || w[0] != '}')
    ensures Substitute(['{'] + (['{'] + (a + (['}'] + w))), vars) == ['{'] + (['{'] + (a + Substitute(['}'] + w, vars)))
  {
    OpenNamePrefix(a, ['}'] + w, vars);
    OpenOpenNameNoToken(a, w);
    SubstituteLiteral('{', ['{'] + (a + (['}'] + w)), vars);
  }

  /** `{` then a name free of `{` is copied up to what follows the name. */
  lemma OpenNamePrefix(a: string, t: string, vars: map<string, string>)
    requires IsName(a) && '{' !in a
    ensures Substitute(['{'] + (a + t), vars) == ['{'] + (a + Substitute(t, vars))
  {
    SubstituteOpenFree(a, t, vars);
    OpenNameNoToken(a, t);
    SubstituteLiteral('{', a + t, vars);
  }

  /** `{` then a name free of `{` starts no token. */
  lemma OpenNameNoToken(a: string, t: string)
    requires IsName(a) && '{' !in a
    ensures TokenAt(['{'] + (a + t)).None?
  {
    assert (['{'] + (a + t))[1] == a[0];
  }

  /** `{{`, a name, then a single `}` starts no token. */
  lemma OpenOpenNameNoToken(a: string, w: string)
    requires IsName(a) && (w == [] || w[0] != '}')
    ensures TokenAt(['{'] + (['{'] + (a + (['}'] + w)))).None?
  {
    RunThenClose(a, w);
    OpenOpenToken(a + (['}'] + w));
    assert "{{" + (a + (['}'] + w)) == ['{'] + (['{'] + (a + (['}'] + w)));
  }

  /** The resulting second pass differs whenever `a` is a known variable. */
  lemma EmptyValueBreaksIdempotence(a: string, k: string, vars: map<string, string>)
    requires IsName(a) && IsName(k) && '{' !in a && k in vars && vars[k] == []
    requires a in vars && vars[a] != Braced(a)
    ensures var s := ['{'] + (['{'] + (a + (['}'] + (Braced(k) + ['}']))));
      Resolve(Resolve(s, vars), vars) != Resolve(s, vars)
  {
    EmptyValueJoins(a, k, vars);
    KnownReplaced(a, vars);
  }

  /** Values that are non-empty, contain no `{` and do not start with `}`:
      under them a substituted result cannot form a new token. */
  predicate InertValues(vars: map<string, string>)
  {
    forall k :: k in vars ==> vars[k] != [] && '{' !in vars[k] && vars[k][0] != '}'
  }

  /** The `}`-free run at the start of `x`, when not followed by `}}`,
      holds no token and is copied as it is. */
  lemma {:induction false} SubstituteRun(x: string, vars: map<string, string>)
    requires var r := RunLength(x); !(r + 2 <= |x| && x[r + 1] == '}')
    ensures Substitute(x, vars) == x[..RunLength(x)] + Substitute(x[RunLength(x)..], vars)
    decreases |x|
  {
    var r := RunLength(x);
    if r > 0 {
      var t := x[1..];
      RunStep(x);
      SubstituteLiteral(x[0], t, vars);
      SubstituteRun(t, vars);
      var p, y := t[..r - 1], Substitute(x[r..], vars);
      assert x[..r] == [x[0]] + p;
      assert [x[0]] + (p + y) == ([x[0]] + p) + y;
    }
  }

  /** Stepping one character into an unclosed non-empty run: no token
      at the start, and the rest is an unclosed run one shorter. */
  lemma RunStep(x: string)
    requires var r := RunLength(x); r > 0 && !(r + 2 <= |x| && x[r + 1] == '}')
    ensures TokenAt(x).None?
    ensures x == [x[0]] + x[1..]
    ensures RunLength(x[1..]) == RunLength(x) - 1
    ensures x[1..][RunLength(x) - 1..] == x[RunLength(x)..]
    ensures var r := RunLength(x[1..]); !(r + 2 <= |x[1..]| && x[1..][r + 1] == '}')
  {
  }

  /** Under inert values, substitution keeps "empty" and "starts with
      something other than `}`". */
  lemma SubstituteFirst(z: string, vars: map<string, string>)
    requires InertValues(vars)
    ensures z == [] <==> Substitute(z, vars) == []
    ensures z != [] && z[0] != '}' ==> Substitute(z, vars)[0] != '}'
  {
    if z != [] {
      match TokenAt(z)
      case Some(n) =>
        if n in vars {
          assert Substitute(z, vars) == vars[n] + Substitute(z[|n| + 4..], vars);
        } else {
          assert Substitute(z, vars) == Braced(n) + Substitute(z[|n| + 4..], vars);
        }
      case None =>
    }
  }

  /** A `{` in front of a token makes a longer token. */
  lemma OpenBeforeToken(s: string)
    requires |s| >= 2 && s[0] == '{' && TokenAt(s[1..]).Some?
    ensures TokenAt(s).Some?
  {
    var n := TokenAt(s[1..]).value;
    assert s == Braced("{" + n) + s[|n| + 5..];
    TokenAtUnique("{" + n, s);
  }

  /** Under inert values, a position where the first pass found no token
      still has none in the first pass's output. */
  lemma LiteralStaysLiteral(s: string, vars: map<string, string>)
    requires InertValues(vars)
    requires s != [] && TokenAt(s).None?
    ensures TokenAt([s[0]] + Substitute(s[1..], vars)).None?
  {
    if s[0] == '{' && |s| >= 2 {
      if s[1] != '{' {
        SecondNotOpen(s, vars);
      } else {
        if TokenAt(s[1..]).Some? {
          OpenBeforeToken(s);
        }
        OpenOpenStaysLiteral(s, vars);
      }
    }
  }

  /** A `{` followed by something other than `{` stays no token. */
  lemma SecondNotOpen(s: string, vars: map<string, string>)
    requires |s| >= 2 && s[1] != '{'
    ensures TokenAt([s[0]] + Substitute(s[1..], vars)).None?
  {
    var t := s[1..];
    assert t == [t[0]] + t[1..];
    SubstituteLiteral(t[0], t[1..], vars);
  }

  /** `{{` where the first pass found no token, and none one character
      later either. */
  lemma OpenOpenStaysLiteral(s: string, vars: map<string, string>)
    requires InertValues(vars)
    requires |s| >= 2 && s[0] == '{' && s[1] == '{' && TokenAt(s).None? && TokenAt(s[1..]).None?
    ensures TokenAt([s[0]] + Substitute(s[1..], vars)).None?
  {
    var x := s[2..];
    assert s[1..] == ['{'] + x;
    SubstituteLiteral('{', x, vars);
    assert s == "{{" + x;
    OpenOpenToken(x);
    FromOpenOpen(x, vars);
    OpenOpenToken(Substitute(x, vars));
    assert [s[0]] + Substitute(s[1..], vars) == "{{" + Substitute(x, vars);
  }

  /** After `{{`, the `}`-free run of `x` is empty, or not followed by
      `}}`: what makes `{{` followed by `x` start no token. */
  predicate NoCloseAfterRun(x: string)
  {
    var r := RunLength(x);
    r == 0 || r + 2 > |x| || x[r + 1] != '}'
  }

  /** `{{` then `x` starts no token exactly when `NoCloseAfterRun(x)`. */
  lemma OpenOpenToken(x: string)
    ensures TokenAt("{{" + x).None? <==> NoCloseAfterRun(x)
  {
    var s := "{{" + x;
    assert s[2..] == x;
    forall i | 0 <= i < |x| ensures s[i + 2] == x[i] {
    }
  }

  /** Under inert values, substitution keeps `NoCloseAfterRun`. */
  lemma FromOpenOpen(x: string, vars: map<string, string>)
    requires InertValues(vars) && NoCloseAfterRun(x)
    ensures NoCloseAfterRun(Substitute(x, vars))
  {
    var r := RunLength(x);
    if r == 0 {
      EmptyRunAfterOpen(x, vars);
    } else if r < |x| {
      ClosedOnceAfterOpen(x, vars);
    } else {
      RunToEnd(x, vars);
    }
  }

  /** A string that is empty or starts with `}` keeps an empty run. */
  lemma EmptyRunAfterOpen(x: string, vars: map<string, string>)
    requires RunLength(x) == 0
    ensures RunLength(Substitute(x, vars)) == 0
  {
    if x != [] {
      assert x == [x[0]] + x[1..];
      SubstituteLiteral(x[0], x[1..], vars);
    }
  }

  /** A string free of `}` is copied as it is. */
  lemma RunToEnd(x: string, vars: map<string, string>)
    requires RunLength(x) == |x|
    ensures Substitute(x, vars) == x
  {
    SubstituteRun(x, vars);
    assert x[..|x|] == x && x[|x|..] == [];
  }

  /** A `}`-free run closed by a single `}` keeps its length and stays
      single-closed after substitution. */
  lemma ClosedOnceAfterOpen(x: string, vars: map<string, string>)
    requires InertValues(vars)
    requires var r := RunLength(x); 1 <= r < |x| && (r + 2 > |x| || x[r + 1] != '}')
    ensures NoCloseAfterRun(Substitute(x, vars))
  {
    var r := RunLength(x);
    var p, z := x[..r], x[r + 1..];
    assert '}' !in p by {
      forall i | 0 <= i < |p| ensures p[i] != '}' {
        assert p[i] == x[i];
      }
    }
    assert z == [] || z[0] != '}' by {
      if z != [] {
        assert z[0] == x[r + 1];
      }
    }
    var w := ClosedStep(x, vars);
    SubstituteFirst(z, vars);
    RunThenClose(p, w);
  }

  /** Substitution over a `}`-free run closed by a single `}`: the run and
      the `}` are copied, then the rest is substituted. */
  lemma ClosedStep(x: string, vars: map<string, string>) returns (w: string)
    requires var r := RunLength(x); r < |x| && (r + 2 > |x| || x[r + 1] != '}')
    ensures w == Substitute(x[RunLength(x) + 1..], vars)
    ensures Substitute(x, vars) == x[..RunLength(x)] + (['}'] + w)
  {
    var r := RunLength(x);
    var z := x[r + 1..];
    SubstituteRun(x, vars);
    assert x[r..] == ['}'] + z;
    SubstituteLiteral('}', z, vars);
    w := Substitute(z, vars);
  }

  /** The `}`-free run of `p` then `}` is `p`, and when `w` does not
      start with `}` the string is single-closed. */
  lemma RunThenClose(p: string, w: string)
    requires '}' !in p
    requires w == [] || w[0] != '}'
    ensures RunLength(p + (['}'] + w)) == |p|
    ensures NoCloseAfterRun(p + (['}'] + w))
  {
    var t := p + (['}'] + w);
    assert t[|p|] == '}';
    assert forall i :: 0 <= i < |p| ==> t[i] == p[i];
    assert w != [] ==> t[|p| + 1] == w[0];
  }

  /** Under inert values, substitution is idempotent: a second pass over a
      result finds nothing more to do. */
  lemma {:induction false} SubstituteIdempotent(s: string, vars: map<string, string>)
    requires InertValues(vars)
    ensures Substitute(Substitute(s, vars), vars) == Substitute(s, vars)
    decreases |s|
  {
    if s != [] {
      match TokenAt(s)
      case Some(n) =>
        var rest := s[|n| + 4..];
        SubstituteIdempotent(rest, vars);
        if n in vars {
          SubstituteOpenFree(vars[n], Substitute(rest, vars), vars);
        } else {
          SubstituteToken(n, Substitute(rest, vars), vars);
        }
      case None =>
        SubstituteIdempotent(s[1..], vars);
        LiteralStaysLiteral(s, vars);
        SubstituteLiteral(s[0], Substitute(s[1..], vars), vars);
    }
  }

  /** `Resolve` is idempotent under inert values. */
  lemma ResolveIdempotent(s: string, vars: map<string, string>)
    requires InertValues(vars)
    ensures Resolve(Resolve(s, vars), vars) == Resolve(s, vars)
  {
    SubstituteIdempotent(s, vars);
  }
}
