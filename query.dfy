/** The `key=value` pairs joined by `&` that every endpoint sends, as a GET
    query string or as a POST body, and the reading of such a string back into
    pairs (what the server does with it). */
module FormQuery {
  import opened Wrappers

  /** A prepared parameter: its name and its escaped value. */
  type Pair = (string, string)

  /** `"#{k}=#{v}"` */
  function PairText(p: Pair): string {
    p.0 + "=" + p.1
  }

  /** `pairs.collect { |k, v| "#{k}=#{v}" }.join('&')` */
  function Join(pairs: seq<Pair>): (s: string)
    ensures s == "" <==> pairs == []
  {
    if |pairs| == 0 then ""
    else if |pairs| == 1 then PairText(pairs[0])
    else PairText(pairs[0]) + "&" + Join(pairs[1..])
  }

  /** `params.empty? ? nil : params.join('&')`: no query at all for no pairs. */
  function Query(pairs: seq<Pair>): (q: Option<string>)
    ensures q.None? <==> pairs == []
    ensures q.Some? ==> q.value != "" && q.value == Join(pairs)
  {
    if pairs == [] then None else Some(Join(pairs))
  }

  /** The first pair, then `&` and the rest when there is any. */
  lemma JoinCons(p: Pair, rest: seq<Pair>)
    ensures Join([p] + rest) == PairText(p) + (if rest == [] then "" else "&" + Join(rest))
  {
    assert ([p] + rest)[0] == p;
    assert ([p] + rest)[1..] == rest;
  }

  lemma JoinTwoThen(x: Pair, y: Pair, rest: seq<Pair>)
    ensures Join([x, y] + rest) == PairText(x) + "&" + PairText(y) + (if rest == [] then "" else "&" + Join(rest))
  {
    assert [x, y] + rest == [x] + ([y] + rest);
    JoinCons(x, [y] + rest);
    JoinCons(y, rest);
  }

  /** The pieces of `s` between occurrences of `sep`. */
  function Split(s: string, sep: char): (parts: seq<string>)
    ensures |parts| >= 1
    ensures forall i :: 0 <= i < |parts| ==> sep !in parts[i]
    decreases |s|
  {
    if |s| == 0 then [""]
    else
      var rest := Split(s[1..], sep);
      if s[0] == sep then [""] + rest else [[s[0]] + rest[0]] + rest[1..]
  }

  /** The longest prefix of `s` free of `c`. */
  function Before(s: string, c: char): (b: string)
    ensures b <= s && c !in b
    ensures |b| < |s| ==> s[|b|] == c
  {
    if |s| == 0 || s[0] == c then "" else [s[0]] + Before(s[1..], c)
  }

  /** One `k=v` segment, split at its first `=`. */
  function ParsePair(segment: string): Pair {
    var k := Before(segment, '=');
    (k, if |k| < |segment| then segment[|k| + 1..] else "")
  }

  /** The pairs of a query string or form body, in order. */
  function ParseQuery(s: string): seq<Pair> {
    if s == "" then []
    else
      var parts := Split(s, '&');
      seq(|parts|, i requires 0 <= i < |parts| => ParsePair(parts[i]))
  }

  /** A pair that survives the trip through the wire format: no separator
      in the key, no `&` in the value. */
  predicate Plain(p: Pair) {
    '&' !in p.0 && '=' !in p.0 && '&' !in p.1
  }

  lemma {:induction false} SplitFree(a: string, sep: char)
    requires sep !in a
    ensures Split(a, sep) == [a]
    decreases |a|
  {
    if |a| > 0 {
      SplitFree(a[1..], sep);
      assert [a[0]] + a[1..] == a;
    }
  }

  lemma {:induction false} SplitAtFirst(a: string, sep: char, b: string)
    requires sep !in a
    ensures Split(a + [sep] + b, sep) == [a] + Split(b, sep)
    decreases |a|
  {
    if |a| > 0 {
      SplitAtFirst(a[1..], sep, b);
      assert (a + [sep] + b)[1..] == a[1..] + [sep] + b;
      assert (a + [sep] + b)[0] == a[0] != sep;
      assert [a[0]] + a[1..] == a;
    } else {
      assert a + [sep] + b == [sep] + b;
    }
  }

  lemma {:induction false} BeforeFree(k: string, c: char, rest: string)
    requires c !in k
    ensures Before(k + [c] + rest, c) == k
    decreases |k|
  {
    if |k| > 0 {
      BeforeFree(k[1..], c, rest);
      assert (k + [c] + rest)[1..] == k[1..] + [c] + rest;
    } else {
      assert k + [c] + rest == [c] + rest;
    }
  }

  /** A `k=v` segment splits back into `k` and `v` when `k` has no `=`. */
  lemma PairRoundTrip(p: Pair)
    requires '=' !in p.0
    ensures ParsePair(PairText(p)) == p
  {
    BeforeFree(p.0, '=', p.1);
    var t := PairText(p);
    assert t[|p.0| + 1..] == p.1;
  }

  /** Joining puts one `&` between consecutive pairs and nowhere else. */
  lemma {:induction false} JoinSplits(pairs: seq<Pair>)
    requires pairs != []
    requires forall i :: 0 <= i < |pairs| ==> Plain(pairs[i])
    ensures Split(Join(pairs), '&') == seq(|pairs|, i requires 0 <= i < |pairs| => PairText(pairs[i]))
    decreases |pairs|
  {
    var first := PairText(pairs[0]);
    assert '&' !in first by {
      assert Plain(pairs[0]);
    }
    if |pairs| == 1 {
      SplitFree(first, '&');
    } else {
      JoinSplits(pairs[1..]);
      SplitAtFirst(first, '&', Join(pairs[1..]));
    }
  }

  /** Reading a joined query gives back the pairs, in order. */
  lemma QueryRoundTrip(pairs: seq<Pair>)
    requires forall i :: 0 <= i < |pairs| ==> Plain(pairs[i])
    ensures ParseQuery(Join(pairs)) == pairs
  {
    if pairs != [] {
      JoinSplits(pairs);
      var r := ParseQuery(Join(pairs));
      forall i | 0 <= i < |pairs|
        ensures r[i] == pairs[i]
      {
        assert Plain(pairs[i]);
        PairRoundTrip(pairs[i]);
      }
    }
  }
}
