/** The consent page carries the authorization code, the echoed state and the
    tenant endpoint inside inline script text. Each is found with the regular
    expression `key:\s*"([^"]+)"`: the key, a colon, optional whitespace, a
    double quote, one or more characters other than a double quote (the
    capture) and a closing double quote. The engine reports the leftmost
    match. At a fixed start the match is unique: `\s*` cannot swallow the
    opening quote and `[^"]+` must stop at the first quote, so the scan below
    is a faithful reading of the expression. */
module FieldExtraction {
  import opened Wrappers
  import opened Primitives

  /** `\s` in the engine's default Unicode mode: the White_Space characters. */
  predicate IsSpace(c: char) {
    || c == ' '
    || '\t' <= c <= '\r'
    || c == '\U{85}'
    || c == '\U{A0}'
    || c == '\U{1680}'
    || '\U{2000}' <= c <= '\U{200A}'
    || c == '\U{2028}'
    || c == '\U{2029}'
    || c == '\U{202F}'
    || c == '\U{205F}'
    || c == '\U{3000}'
  }

  /** First position at or after `i` that does not hold whitespace. */
  function SkipSpaces(s: string, i: nat): (k: nat)
    requires i <= |s|
    ensures i <= k <= |s|
    ensures forall j :: i <= j < k ==> IsSpace(s[j])
    ensures k < |s| ==> !IsSpace(s[k])
    decreases |s| - i
  {
    if i < |s| && IsSpace(s[i]) then SkipSpaces(s, i + 1) else i
  }

  /** `key:` is written at `i`. */
  predicate HeadAt(s: string, key: string, i: nat)
    requires i <= |s|
  {
    |s| - i >= |key| + 1 && s[i..i + |key| + 1] == key + ":"
  }

  lemma HeadAtParts(s: string, key: string, i: nat)
    requires i <= |s|
    ensures HeadAt(s, key, i) <==> i + |key| < |s| && s[i..i + |key|] == key && s[i + |key|] == ':'
  {
    if i + |key| < |s| {
      var head := s[i..i + |key| + 1];
      assert head == s[i..i + |key|] + [s[i + |key|]];
      assert (key + ":")[..|key|] == key;
      assert head[..|key|] == s[i..i + |key|];
    }
  }

  /** The capture of `"([^"]+)"` when its opening quote is at `open`:
      everything up to the next quote, which must exist and must not be the
      very next character. */
  function QuotedAt(s: string, open: nat): (r: Option<string>)
    requires open <= |s|
    ensures r.Some? ==> |r.value| > 0 && Lacks(r.value, '"')
  {
    if open == |s| || s[open] != '"' then None
    else
      var rest := s[open + 1..];
      var q := IndexOf(rest, '"');
      if q == 0 || open + 1 + q == |s| then None
      else assert s[open + 1..open + 1 + q] == rest[..q]; Some(rest[..q])
  }

  /** Declarative reading of `"([^"]+)"` at `open` with capture `v`. */
  ghost predicate IsQuoted(s: string, open: nat, v: string) {
    && open + |v| + 2 <= |s|
    && s[open] == '"'
    && |v| > 0
    && Lacks(v, '"')
    && s[open + 1..open + 1 + |v|] == v
    && s[open + 1 + |v|] == '"'
  }

  lemma QuotedAtIsQuoted(s: string, open: nat, v: string)
    requires open <= |s|
    ensures QuotedAt(s, open) == Some(v) <==> IsQuoted(s, open, v)
  {
    if open < |s| && s[open] == '"' {
      var rest := s[open + 1..];
      var q := IndexOf(rest, '"');
      if QuotedAt(s, open) == Some(v) {
        assert s[open + 1 + q] == rest[q];
      }
      if IsQuoted(s, open, v) {
        assert rest[|v|] == '"';
        assert q == |v|;
        assert rest[..q] == s[open + 1..open + 1 + |v|];
      }
    }
  }

  /** The capture of the pattern when a match starts exactly at `i`. */
  function MatchAt(s: string, key: string, i: nat): (r: Option<string>)
    requires i <= |s|
    ensures r.Some? ==> |r.value| > 0 && Lacks(r.value, '"')
  {
    if HeadAt(s, key, i) then QuotedAt(s, SkipSpaces(s, i + |key| + 1)) else None
  }

  /** Declarative reading of the pattern: a match starts at `i`, its
      whitespace run has length `w` and its capture is `v`. */
  ghost predicate IsMatch(s: string, key: string, i: nat, w: nat, v: string) {
    var open := i + |key| + 1 + w;
    && open <= |s|
    && s[i..i + |key|] == key
    && s[i + |key|] == ':'
    && (forall j :: i + |key| + 1 <= j < open ==> IsSpace(s[j]))
    && IsQuoted(s, open, v)
  }

  /** The scan at a fixed start agrees with the pattern, in both directions,
      and the match there is unique. */
  lemma MatchAtIsMatch(s: string, key: string, i: nat, v: string)
    requires i <= |s|
    ensures MatchAt(s, key, i) == Some(v) <==> exists w :: IsMatch(s, key, i, w, v)
  {
    if MatchAt(s, key, i) == Some(v) {
      MatchAtSound(s, key, i);
    }
    if w :| IsMatch(s, key, i, w, v) {
      MatchAtComplete(s, key, i, w, v);
    }
  }

  lemma MatchAtSound(s: string, key: string, i: nat)
    requires i <= |s|
    requires MatchAt(s, key, i).Some?
    ensures IsMatch(s, key, i, SkipSpaces(s, i + |key| + 1) - (i + |key| + 1), MatchAt(s, key, i).value)
  {
    HeadAtParts(s, key, i);
    QuotedAtIsQuoted(s, SkipSpaces(s, i + |key| + 1), MatchAt(s, key, i).value);
  }

  lemma MatchAtComplete(s: string, key: string, i: nat, w: nat, v: string)
    requires i <= |s|
    requires IsMatch(s, key, i, w, v)
    ensures MatchAt(s, key, i) == Some(v)
  {
    HeadAtParts(s, key, i);
    var open := i + |key| + 1 + w;
    assert SkipSpaces(s, i + |key| + 1) == open by {
      assert !IsSpace(s[open]);
    }
    QuotedAtIsQuoted(s, open, v);
  }

  /** Leftmost start at or after `from` where the pattern matches. */
  function LeftmostFrom(s: string, key: string, from: nat): (r: Option<nat>)
    requires from <= |s|
    ensures r.None? ==> forall j :: from <= j <= |s| ==> MatchAt(s, key, j).None?
    ensures r.Some? ==> && from <= r.value <= |s|
                        && MatchAt(s, key, r.value).Some?
                        && forall j :: from <= j < r.value ==> MatchAt(s, key, j).None?
    decreases |s| - from
  {
    if MatchAt(s, key, from).Some? then Some(from)
    else if from == |s| then None
    else LeftmostFrom(s, key, from + 1)
  }

  /** The first capture group of the leftmost match of `key:\s*"([^"]+)"` in
      `s`, or nothing when the pattern matches nowhere. */
  function Extract(s: string, key: string): (r: Option<string>)
    ensures r.None? ==> forall i :: 0 <= i <= |s| ==> MatchAt(s, key, i).None?
    ensures r.Some? ==> exists i :: 0 <= i <= |s| && MatchAt(s, key, i) == r
                                    && forall j :: 0 <= j < i ==> MatchAt(s, key, j).None?
    ensures r.Some? ==> |r.value| > 0 && Lacks(r.value, '"')
  {
    match LeftmostFrom(s, key, 0)
    case None => None
    case Some(i) => MatchAt(s, key, i)
  }

  /** The extracted value is the capture of a match of the pattern, and no
      match of the pattern starts further left. */
  lemma ExtractIsLeftmost(s: string, key: string)
    ensures Extract(s, key).Some? ==>
      exists i: nat, w: nat :: IsMatch(s, key, i, w, Extract(s, key).value)
        && forall j: nat, w': nat, v': string :: j < i ==> !IsMatch(s, key, j, w', v')
  {
    var r := Extract(s, key);
    if r.Some? {
      var i :| 0 <= i <= |s| && MatchAt(s, key, i) == r
                 && forall j :: 0 <= j < i ==> MatchAt(s, key, j).None?;
      MatchAtIsMatch(s, key, i, r.value);
      var w :| IsMatch(s, key, i, w, r.value);
      forall j: nat, w': nat, v': string | j < i
        ensures !IsMatch(s, key, j, w', v')
      {
        if IsMatch(s, key, j, w', v') {
          MatchAtComplete(s, key, j, w', v');
        }
      }
    }
  }

  /** Extraction finds nothing exactly when the pattern matches nowhere. */
  lemma ExtractNoneIffNoMatch(s: string, key: string)
    ensures Extract(s, key).None? <==> forall i: nat, w: nat, v: string :: !IsMatch(s, key, i, w, v)
  {
    if Extract(s, key).None? {
      forall i: nat, w: nat, v: string
        ensures !IsMatch(s, key, i, w, v)
      {
        if IsMatch(s, key, i, w, v) {
          MatchAtComplete(s, key, i, w, v);
        }
      }
    } else {
      ExtractIsLeftmost(s, key);
    }
  }

  /** A code written with a space after its colon, one character into the
      text, is found and captured without its quotes. */
  lemma ExtractExample()
    ensures Extract("{code: \"abc\"}", "code") == Some("abc")
  {
    var s := "{code: \"abc\"}";
    assert MatchAt(s, "code", 0).None? by {
      assert s[0] == '{';
      assert ("code" + ":")[0] == 'c';
      assert s[0..5][0] == '{';
    }
    assert s[1..5] == "code" by {
      assert s[1] == 'c' && s[2] == 'o' && s[3] == 'd' && s[4] == 'e';
    }
    assert s[5] == ':' && s[6] == ' ' && s[7] == '"';
    assert s[8..11] == "abc" by {
      assert s[8] == 'a' && s[9] == 'b' && s[10] == 'c';
    }
    assert s[11] == '"';
    MatchAtComplete(s, "code", 1, 1, "abc");
  }
}
