/** The few JavaScript string operations the two front-ends rely on:
    `String.prototype.trim`, `Array.prototype.join` on strings, and the
    UTF-16 `length` of a string. */
module Js {
  import opened Common
  import opened Parsing

  /** `s.trim()`: JavaScript whitespace and line terminators removed at both ends. */
  function Trim(s: string): (r: string)
    ensures |r| <= |s|
    ensures r == [] || (!IsJsWhitespace(r[0]) && !IsJsWhitespace(r[|r| - 1]))
    decreases |s|
  {
    if s != [] && IsJsWhitespace(s[0]) then Trim(s[1..])
    else if s != [] && IsJsWhitespace(s[|s| - 1]) then Trim(s[..|s| - 1])
    else s
  }

  /** Trimming is stripping the leading whitespace and then the trailing
      whitespace: the result is the middle of `s` between two runs of
      whitespace. */
  lemma {:induction false} TrimIsStrip(s: string)
    ensures Trim(s) == StripEnd(StripStart(s, IsJsWhitespace), IsJsWhitespace)
    decreases |s|
  {
    if s != [] && IsJsWhitespace(s[0]) {
      TrimIsStrip(s[1..]);
    } else if s != [] && IsJsWhitespace(s[|s| - 1]) {
      TrimIsStrip(s[..|s| - 1]);
    }
  }

  /** A string of whitespace only trims to the empty string, and only such a string does. */
  lemma {:induction false} TrimEmptyIff(s: string)
    ensures Trim(s) == "" <==> forall i :: 0 <= i < |s| ==> IsJsWhitespace(s[i])
    decreases |s|
  {
    if s != [] && IsJsWhitespace(s[0]) {
      TrimEmptyIff(s[1..]);
      assert forall i :: 0 < i < |s| ==> s[i] == s[1..][i - 1];
    } else if s != [] && IsJsWhitespace(s[|s| - 1]) {
      TrimEmptyIff(s[..|s| - 1]);
      assert forall i :: 0 <= i < |s| - 1 ==> s[i] == s[..|s| - 1][i];
    }
  }

  /** `xs.join(sep)` */
  function Join(xs: seq<string>, sep: string): (r: string)
    ensures xs == [] ==> r == ""
    ensures |xs| == 1 ==> r == xs[0]
    decreases |xs|
  {
    if xs == [] then ""
    else if |xs| == 1 then xs[0]
    else xs[0] + sep + Join(xs[1..], sep)
  }

  /** Joining adds one separator between each pair of neighbours. */
  lemma {:induction false} JoinLength(xs: seq<string>, sep: string)
    requires xs != []
    ensures |Join(xs, sep)| == SumLengths(xs) + (|xs| - 1) * |sep|
    decreases |xs|
  {
    if |xs| > 1 {
      JoinLength(xs[1..], sep);
    }
  }

  function SumLengths(xs: seq<string>): nat
    decreases |xs|
  {
    if xs == [] then 0 else |xs[0]| + SumLengths(xs[1..])
  }

  /** `s.length`: characters outside the Basic Multilingual Plane count twice. */
  function Utf16Length(s: string): (n: nat)
    ensures |s| <= n <= 2 * |s|
    ensures (forall i :: 0 <= i < |s| ==> s[i] as int <= 0xFFFF) ==> n == |s|
    decreases |s|
  {
    if s == [] then 0 else (if s[0] as int > 0xFFFF then 2 else 1) + Utf16Length(s[1..])
  }

  /** A value in a JSON error body: DRF sends a list of messages per field,
      other servers may send a plain string. */
  datatype ErrorValue = Messages(items: seq<string>) | Text(text: string)

  /** The value as a string: a list joined with `sep`, a string as it is. */
  function ValueText(v: ErrorValue, sep: string): (r: string)
    ensures v.Text? ==> r == v.text
    ensures v.Messages? && |v.items| == 1 ==> r == v.items[0]
  {
    match v
    case Messages(items) => Join(items, sep)
    case Text(t) => t
  }

  /** How a rejected API call reached the page: with a response body whose
      entries are in key order, or without one (a network failure), with the
      error's `message`. */
  datatype ApiFailure = WithBody(entries: seq<(string, ErrorValue)>) | WithoutBody(message: string)

  /** The `field: messages` parts of a summary, messages joined by ", ". */
  function SummaryParts(entries: seq<(string, ErrorValue)>): (r: seq<string>)
    ensures |r| == |entries|
    ensures forall i :: 0 <= i < |entries| ==> r[i] == entries[i].0 + ": " + ValueText(entries[i].1, ", ")
  {
    seq(|entries|, i requires 0 <= i < |entries| => entries[i].0 + ": " + ValueText(entries[i].1, ", "))
  }

  /** Where the `i`-th string starts in `Join(xs, sep)`. */
  function JoinOffset(xs: seq<string>, sep: string, i: nat): nat
    requires i < |xs|
    decreases i
  {
    if i == 0 then 0 else |xs[0]| + |sep| + JoinOffset(xs[1..], sep, i - 1)
  }

  /** A string found in `s` is found in `p + s`, shifted by `|p|`. */
  lemma OccursAfter(p: string, s: string, n: string, k: int)
    requires OccursAt(s, n, k)
    ensures OccursAt(p + s, n, |p| + k)
  {
    assert (p + s)[|p| + k..|p| + k + |n|] == s[k..k + |n|];
  }

  /** Each string appears in the joined string at its offset, followed by
      the separator when another string comes after it, and the next string
      starts right after that separator: the parts appear in order, one
      separator between neighbours. */
  lemma {:induction false} JoinPart(xs: seq<string>, sep: string, i: nat)
    requires i < |xs|
    ensures OccursAt(Join(xs, sep), xs[i], JoinOffset(xs, sep, i))
    ensures i + 1 < |xs| ==> OccursAt(Join(xs, sep), sep, JoinOffset(xs, sep, i) + |xs[i]|)
    ensures i + 1 < |xs| ==> JoinOffset(xs, sep, i + 1) == JoinOffset(xs, sep, i) + |xs[i]| + |sep|
    decreases i
  {
    if |xs| > 1 {
      JoinHead(xs, sep);
      if i > 0 {
        var head, rest := xs[0] + sep, Join(xs[1..], sep);
        var k := JoinOffset(xs[1..], sep, i - 1);
        assert Join(xs, sep) == head + rest;
        assert JoinOffset(xs, sep, i) == |head| + k;
        assert xs[1..][i - 1] == xs[i];
        JoinPart(xs[1..], sep, i - 1);
        OccursAfter(head, rest, xs[i], k);
        if i + 1 < |xs| {
          OccursAfter(head, rest, sep, k + |xs[i]|);
        }
      }
    }
  }

  /** With two strings or more, the first opens the joined string and the
      separator follows it. */
  lemma JoinHead(xs: seq<string>, sep: string)
    requires |xs| > 1
    ensures Join(xs, sep) == xs[0] + sep + Join(xs[1..], sep)
    ensures OccursAt(Join(xs, sep), xs[0], 0) && OccursAt(Join(xs, sep), sep, |xs[0]|)
  {
    var r := Join(xs, sep);
    assert r[..|xs[0]|] == xs[0];
    assert r[|xs[0]|..|xs[0]| + |sep|] == sep;
  }
}
