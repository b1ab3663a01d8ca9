/** The index query built for one file pattern of a plugin (LeappBridgeTask.processPlugin):
    the dump item's path AND every literal token of the pattern, the tokens being what a
    java.util.StringTokenizer with delimiters "*" and "/" yields. */
module PluginQuery {
  import opened Text

  predicate IsDelimiter(c: char)
  {
    c == '*' || c == '/'
  }

  /** Index of the first delimiter, or |s| when there is none. */
  function FirstDelimiter(s: string): (k: nat)
    ensures k <= |s|
  {
    if s == [] then 0
    else if IsDelimiter(s[0]) then 0
    else 1 + FirstDelimiter(s[1..])
  }

  /** The runs before the first delimiter hold none, and the first delimiter is one. */
  lemma {:induction false} FirstDelimiterSpec(s: string)
    ensures DelimiterFree(s[..FirstDelimiter(s)])
    ensures FirstDelimiter(s) < |s| ==> IsDelimiter(s[FirstDelimiter(s)])
  {
    if s != [] && !IsDelimiter(s[0]) {
      FirstDelimiterSpec(s[1..]);
      var k := FirstDelimiter(s[1..]);
      forall i | 0 <= i < k + 1 ensures !IsDelimiter(s[i]) {
        if i > 0 {
          assert s[i] == s[1..][..k][i - 1];
        }
      }
    }
  }

  /** The tokens: the maximal non-empty runs of non-delimiters, in order. */
  function Tokens(s: string): seq<string>
    decreases |s|
  {
    var k := FirstDelimiter(s);
    if k == |s| then (if s == [] then [] else [s])
    else (if k == 0 then [] else [s[..k]]) + Tokens(s[k + 1..])
  }

  function RemoveDelimiters(s: string): string
  {
    if s == [] then []
    else (if IsDelimiter(s[0]) then [] else [s[0]]) + RemoveDelimiters(s[1..])
  }

  function Concat(ts: seq<string>): string
  {
    if ts == [] then [] else ts[0] + Concat(ts[1..])
  }

  lemma {:induction false} ConcatAppend(a: seq<string>, b: seq<string>)
    ensures Concat(a + b) == Concat(a) + Concat(b)
  {
    if a != [] {
      assert (a + b)[0] == a[0];
      assert (a + b)[1..] == a[1..] + b;
      ConcatAppend(a[1..], b);
    } else {
      assert a + b == b;
    }
  }

  lemma {:induction false} RemoveDelimitersAppend(a: string, b: string)
    ensures RemoveDelimiters(a + b) == RemoveDelimiters(a) + RemoveDelimiters(b)
  {
    if a != [] {
      assert (a + b)[0] == a[0];
      assert (a + b)[1..] == a[1..] + b;
      RemoveDelimitersAppend(a[1..], b);
    } else {
      assert a + b == b;
    }
  }

  predicate DelimiterFree(s: string)
  {
    forall i | 0 <= i < |s| :: !IsDelimiter(s[i])
  }

  lemma {:induction false} NoDelimiterKept(s: string)
    requires DelimiterFree(s)
    ensures RemoveDelimiters(s) == s
  {
    if s != [] {
      assert DelimiterFree(s[1..]) by {
        forall i | 0 <= i < |s[1..]| ensures !IsDelimiter(s[1..][i]) {
          assert s[1..][i] == s[i + 1];
        }
      }
      NoDelimiterKept(s[1..]);
    }
  }

  /** A token: a non-empty run without delimiters. */
  predicate IsToken(t: string)
  {
    t != [] && DelimiterFree(t)
  }

  /** Every token is non-empty and delimiter-free. */
  lemma {:induction false} TokensAreTokens(s: string)
    ensures forall t | t in Tokens(s) :: IsToken(t)
    decreases |s|
  {
    var k := FirstDelimiter(s);
    FirstDelimiterSpec(s);
    if k < |s| {
      TokensAreTokens(s[k + 1..]);
    } else if s != [] {
      assert s[..k] == s;
    }
  }

  /** Together the tokens spell the pattern with its delimiters taken out. */
  lemma {:induction false} TokensConcat(s: string)
    ensures Concat(Tokens(s)) == RemoveDelimiters(s)
    decreases |s|
  {
    var k := FirstDelimiter(s);
    FirstDelimiterSpec(s);
    if k == |s| {
      assert s[..k] == s;
      NoDelimiterKept(s);
      if s != [] {
        assert Tokens(s) == [s];
        assert Concat([s]) == s + Concat([]);
      }
    } else {
      var rest := s[k + 1..];
      TokensConcat(rest);
      var head: seq<string> := if k == 0 then [] else [s[..k]];
      assert Tokens(s) == head + Tokens(rest);
      ConcatAppend(head, Tokens(rest));
      NoDelimiterKept(s[..k]);
      assert Concat(head) == s[..k] by {
        if k != 0 {
          assert Concat(head) == s[..k] + Concat([]);
        }
      }
      assert s == s[..k] + ([s[k]] + rest);
      RemoveDelimitersAppend(s[..k], [s[k]] + rest);
      assert RemoveDelimiters([s[k]] + rest) == RemoveDelimiters(rest) by {
        assert ([s[k]] + rest)[0] == s[k];
        assert ([s[k]] + rest)[1..] == rest;
      }
    }
  }

  /** The first delimiter of `a + b`, when `a` has none and `b` starts with one, is at |a|. */
  lemma {:induction false} FirstDelimiterPrefix(a: string, b: string)
    requires DelimiterFree(a)
    requires b != [] && IsDelimiter(b[0])
    ensures FirstDelimiter(a + b) == |a|
  {
    if a == [] {
      assert a + b == b;
    } else {
      assert (a + b)[0] == a[0];
      assert (a + b)[1..] == a[1..] + b;
      assert DelimiterFree(a[1..]) by {
        forall i | 0 <= i < |a[1..]| ensures !IsDelimiter(a[1..][i]) {
          assert a[1..][i] == a[i + 1];
        }
      }
      FirstDelimiterPrefix(a[1..], b);
    }
  }

  /** The tokens of a pattern whose first delimiter is at `k`. */
  lemma TokensAt(s: string, k: nat)
    requires k < |s| && IsDelimiter(s[k]) && DelimiterFree(s[..k])
    ensures Tokens(s) == (if k == 0 then [] else [s[..k]]) + Tokens(s[k + 1..])
  {
    assert s == s[..k] + s[k..];
    assert s[k..][0] == s[k];
    FirstDelimiterPrefix(s[..k], s[k..]);
  }

  /** Tokens never span a delimiter: splitting the pattern at any delimiter splits its tokens. */
  lemma TokensSplit(a: string, d: char, b: string)
    requires IsDelimiter(d)
    ensures Tokens(a + [d] + b) == Tokens(a) + Tokens(b)
  {
    assert a + [d] + b == a + ([d] + b);
    assert ([d] + b)[1..] == b;
    TokensBeforeDelimiter(a, [d] + b);
  }

  /** The same split, with the delimiter at the head of the second part. */
  lemma {:induction false} TokensBeforeDelimiter(a: string, x: string)
    requires x != [] && IsDelimiter(x[0])
    ensures Tokens(a + x) == Tokens(a) + Tokens(x[1..])
    decreases |a|
  {
    var k := FirstDelimiter(a);
    FirstDelimiterSpec(a);
    if k == |a| {
      assert a[..k] == a;
      FirstDelimiterPrefix(a, x);
      assert (a + x)[..|a|] == a;
      assert (a + x)[|a| + 1..] == x[1..];
    } else {
      FirstDelimiterAppend(a, x);
      assert (a + x)[..k] == a[..k];
      assert (a + x)[k + 1..] == a[k + 1..] + x;
      TokensBeforeDelimiter(a[k + 1..], x);
    }
  }

  /** Text after a delimiter does not move the first delimiter. */
  lemma {:induction false} FirstDelimiterAppend(a: string, x: string)
    requires FirstDelimiter(a) < |a|
    ensures FirstDelimiter(a + x) == FirstDelimiter(a)
  {
    assert (a + x)[0] == a[0];
    if !IsDelimiter(a[0]) {
      assert (a + x)[1..] == a[1..] + x;
      FirstDelimiterAppend(a[1..], x);
    }
  }

  /** The conjunct a pattern token adds to the query. */
  function Clause(token: string): string
  {
    " && path:\"" + token + "\""
  }

  /** The conjuncts of a sequence of tokens, in order. */
  function Clauses(tokens: seq<string>): string
  {
    if tokens == [] then "" else Clauses(tokens[..|tokens| - 1]) + Clause(tokens[|tokens| - 1])
  }

  /** The query for one pattern: the dump path conjoined with every token of the pattern. */
  function Query(dumpPath: string, pattern: string): string
  {
    "path:\"" + dumpPath + "\"" + Clauses(Tokens(pattern))
  }

  /** The query-building loop of processPlugin for one pattern. */
  method BuildQuery(dumpPath: string, pattern: string) returns (query: string)
    ensures query == Query(dumpPath, pattern)
  {
    query := "path:\"" + dumpPath + "\"";
    var tokens := Tokens(pattern);
    var i := 0;
    while i < |tokens|
      invariant 0 <= i <= |tokens|
      invariant query == "path:\"" + dumpPath + "\"" + Clauses(tokens[..i])
    {
      assert tokens[..i + 1][..i] == tokens[..i];
      query := query + " && path:\"" + tokens[i] + "\"";
      i := i + 1;
    }
    assert tokens[..i] == tokens;
  }

  /** Every token of the pattern appears in the query as its own conjunct, after the dump
      path conjunct. */
  lemma {:induction false} ClausesMention(tokens: seq<string>, j: int)
    requires 0 <= j < |tokens|
    ensures Contains(Clauses(tokens), Clause(tokens[j]))
  {
    var n := |tokens| - 1;
    var prev := Clauses(tokens[..n]);
    if j == n {
      assert OccursAt(prev + Clause(tokens[n]), Clause(tokens[j]), |prev|);
    } else {
      ClausesMention(tokens[..n], j);
      var i :| 0 <= i <= |prev| - |Clause(tokens[j])| && OccursAt(prev, Clause(tokens[j]), i);
      assert (prev + Clause(tokens[n]))[i..i + |Clause(tokens[j])|] == prev[i..i + |Clause(tokens[j])|];
      assert OccursAt(prev + Clause(tokens[n]), Clause(tokens[j]), i);
    }
  }

  lemma QueryShape(dumpPath: string, pattern: string)
    ensures StartsWith(Query(dumpPath, pattern), "path:\"" + dumpPath + "\"")
    ensures forall t | t in Tokens(pattern) :: Contains(Query(dumpPath, pattern), Clause(t))
  {
    var head := "path:\"" + dumpPath + "\"";
    var ts := Tokens(pattern);
    assert Query(dumpPath, pattern)[..|head|] == head;
    forall t | t in ts ensures Contains(Query(dumpPath, pattern), Clause(t)) {
      var j :| 0 <= j < |ts| && ts[j] == t;
      ClausesMention(ts, j);
      ContainsInSuffix(head, Clauses(ts), Clause(t));
    }
  }
}
