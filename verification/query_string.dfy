/** The `key=value&key=value` form of a URL query, used to read back the
    parameters of the consent URL. Values are written verbatim, as the
    consent URL writes them (no percent-encoding). */
module QueryString {
  import opened Primitives

  /** Joins `parts` with `sep` between consecutive parts. */
  function Join(parts: seq<string>, sep: char): string
  {
    if |parts| == 0 then []
    else if |parts| == 1 then parts[0]
    else parts[0] + [sep] + Join(parts[1..], sep)
  }

  /** Cuts `s` at every `sep`; the result always holds at least one part. */
  function Split(s: string, sep: char): (parts: seq<string>)
    ensures |parts| > 0
    decreases |s|
  {
    var i := IndexOf(s, sep);
    if i == |s| then [s] else [s[..i]] + Split(s[i + 1..], sep)
  }

  /** Splitting a joined sequence gives the parts back, provided no part
      contains the separator. */
  lemma {:induction false} SplitJoin(parts: seq<string>, sep: char)
    requires |parts| > 0
    requires forall k :: 0 <= k < |parts| ==> Lacks(parts[k], sep)
    ensures Split(Join(parts, sep), sep) == parts
  {
    if |parts| == 1 {
      IndexOfAbsent(parts[0], sep);
    } else {
      var rest := Join(parts[1..], sep);
      var s := parts[0] + [sep] + rest;
      IndexOfSeparator(parts[0], sep, rest);
      assert s[..|parts[0]|] == parts[0];
      assert s[|parts[0]| + 1..] == rest;
      SplitJoin(parts[1..], sep);
      assert [parts[0]] + parts[1..] == parts;
    }
  }

  /** Joining five parts written out. */
  lemma JoinFive(a: string, b: string, c: string, d: string, e: string, sep: char)
    ensures Join([a, b, c, d, e], sep) == a + [sep] + b + [sep] + c + [sep] + d + [sep] + e
  {
    assert [d, e][1..] == [e];
    assert Join([d, e], sep) == d + [sep] + e;
    assert [c, d, e][1..] == [d, e];
    assert Join([c, d, e], sep) == c + [sep] + (d + [sep] + e);
    assert [b, c, d, e][1..] == [c, d, e];
    assert Join([b, c, d, e], sep) == b + [sep] + (c + [sep] + (d + [sep] + e));
    assert [a, b, c, d, e][1..] == [b, c, d, e];
    assert Join([a, b, c, d, e], sep) == a + [sep] + (b + [sep] + (c + [sep] + (d + [sep] + e)));
  }

  /** Writes one parameter as `key=value`. */
  function EncodePair(p: (string, string)): string {
    p.0 + "=" + p.1
  }

  /** Reads one `key=value` parameter, cutting at the first `=`; a parameter
      without `=` has an empty value. */
  function DecodePair(s: string): (string, string) {
    var i := IndexOf(s, '=');
    if i == |s| then (s, "") else (s[..i], s[i + 1..])
  }

  function EncodedPairs(params: seq<(string, string)>): seq<string> {
    seq(|params|, k requires 0 <= k < |params| => EncodePair(params[k]))
  }

  function Encode(params: seq<(string, string)>): string {
    Join(EncodedPairs(params), '&')
  }

  function Decode(query: string): seq<(string, string)> {
    var parts := Split(query, '&');
    seq(|parts|, k requires 0 <= k < |parts| => DecodePair(parts[k]))
  }

  /** A parameter that survives encoding: neither side holds `&`, and the
      key holds no `=`. */
  predicate IsPlainParam(p: (string, string)) {
    Lacks(p.0, '&') && Lacks(p.0, '=') && Lacks(p.1, '&')
  }

  lemma DecodeEncodePair(p: (string, string))
    requires Lacks(p.0, '=')
    ensures DecodePair(EncodePair(p)) == p
  {
    IndexOfSeparator(p.0, '=', p.1);
    var s := EncodePair(p);
    assert s[..|p.0|] == p.0;
    assert s[|p.0| + 1..] == p.1;
  }

  /** Decoding an encoded non-empty parameter list gives it back. */
  lemma DecodeEncode(params: seq<(string, string)>)
    requires |params| > 0
    requires forall k :: 0 <= k < |params| ==> IsPlainParam(params[k])
    ensures Decode(Encode(params)) == params
  {
    var parts := EncodedPairs(params);
    forall k | 0 <= k < |parts|
      ensures Lacks(parts[k], '&')
    {
      var s := parts[k];
      var a := params[k].0;
      forall j | 0 <= j < |s|
        ensures s[j] != '&'
      {
        if j < |a| {
          assert s[j] == a[j];
        } else if j > |a| {
          assert s[j] == params[k].1[j - |a| - 1];
        }
      }
    }
    SplitJoin(parts, '&');
    forall k | 0 <= k < |params|
      ensures DecodePair(parts[k]) == params[k]
    {
      DecodeEncodePair(params[k]);
    }
  }
}
