/** Concrete behaviours of the engine on small inputs. */
module Scenarios {
  import opened Values
  import opened Auth
  import opened TextOps
  import opened Failures
  import opened Engine

  /** Bearer auth on an empty header map. */
  lemma BearerOnEmptyHeaders()
    ensures HeadersWithAuth(map[], "bearer", map["token" := Text("xyz")]) == map["Authorization" := Text("Bearer xyz")]
  {
    var auth := map["token" := Text("xyz")];
    assert BearerApplies("bearer", auth);
    assert "Bearer " + Show(auth["token"]) == "Bearer xyz";
  }

  /** An API key in the query, on a URL without and with a query string. */
  lemma ApiKeyInQuery()
    ensures var auth := map["in" := Text("query"), "key" := Text("k"), "value" := Text("v")];
      && PrepareUrl("http://x.com", "apikey", auth) == "http://x.com?k=v"
      && PrepareUrl("http://x.com?a=1", "apikey", auth) == "http://x.com?a=1&k=v"
  {
    var auth := map["in" := Text("query"), "key" := Text("k"), "value" := Text("v")];
    assert '?' !in "http://x.com";
    assert "http://x.com?a=1"[12] == '?';
  }

  /** A two-line form body `k0=v0` newline `k1=v1` of single non-space
      characters gives both fields, the second winning on equal keys. */
  lemma TwoLineForm(k0: char, v0: char, k1: char, v1: char)
    requires k0 != '=' && k1 != '='
    requires !IsSpace(k0) && !IsSpace(v0) && !IsSpace(k1) && !IsSpace(v1)
    ensures FormFields(Split([k0, '=', v0, '\n', k1, '=', v1], '\n')) == map[[k0] := [v0]][[k1] := [v1]]
  {
    var l0, l1 := [k0, '=', v0], [k1, '=', v1];
    assert Join([l1], '\n') == l1;
    assert Join([l0, l1], '\n') == [k0, '=', v0, '\n', k1, '=', v1];
    assert '\n' !in l0 && '\n' !in l1;
    SplitUnique([l0, l1], [k0, '=', v0, '\n', k1, '=', v1], '\n');
    SingleCharFields(k0, v0);
    SingleCharFields(k1, v1);
    TwoFields(l0, l1, ([k0], [v0]), ([k1], [v1]));
  }

  /** The form of two lines that each hold one field. */
  lemma TwoFields(l0: string, l1: string, f0: (string, string), f1: (string, string))
    requires FormEntry(l0) == Some(f0) && FormEntry(l1) == Some(f1)
    ensures FormFields([l0, l1]) == map[f0.0 := f0.1][f1.0 := f1.1]
  {
    var es := FormEntries([l0, l1]);
    assert es[..0] == [] && es[..2] == es;
    CollectStep(es, 0);
    CollectStep(es, 1);
  }

  /** A line `k=v` of single non-space characters is the field (k, v). */
  lemma SingleCharFields(k: char, v: char)
    requires k != '=' && !IsSpace(k) && !IsSpace(v)
    ensures FormEntry([k, '=', v]) == Some(([k], [v]))
  {
    var line := [k, '=', v];
    assert line[1..][1..] == [v];
    assert SplitFirst(line[1..], '=') == Some(([], [v]));
    assert [k] + [] == [k];
    assert SplitFirst(line, '=') == Some(([k], [v]));
    StripFixed([k]);
    StripFixed([v]);
  }
}
