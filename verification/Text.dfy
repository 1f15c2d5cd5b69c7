/** Searching, splitting and trimming text, as the standard string operations do. */
module Text {
  import opened Basics

  /** The characters `trim` takes off. */
  predicate IsSpace(c: char) {
    || c == ' ' || '\t' <= c <= '\r' || c == '\U{0085}' || c == '\U{00A0}' || c == '\U{1680}'
    || '\U{2000}' <= c <= '\U{200A}' || c == '\U{2028}' || c == '\U{2029}' || c == '\U{202F}'
    || c == '\U{205F}' || c == '\U{3000}'
  }

  function TrimStart(s: string): string {
    if s != [] && IsSpace(s[0]) then TrimStart(s[1..]) else s
  }

  function TrimEnd(s: string): string {
    if s != [] && IsSpace(s[|s| - 1]) then TrimEnd(s[..|s| - 1]) else s
  }

  function Trim(s: string): string {
    TrimEnd(TrimStart(s))
  }

  /** Neither end is a space. */
  predicate Trimmed(s: string) {
    s == [] || (!IsSpace(s[0]) && !IsSpace(s[|s| - 1]))
  }

  lemma {:induction false} TrimEndIsPrefix(s: string)
    ensures TrimEnd(s) <= s
    ensures TrimEnd(s) == [] || !IsSpace(TrimEnd(s)[|TrimEnd(s)| - 1])
  {
    if s != [] && IsSpace(s[|s| - 1]) {
      TrimEndIsPrefix(s[..|s| - 1]);
    }
  }

  lemma {:induction false} TrimStartStops(s: string)
    ensures TrimStart(s) == [] || !IsSpace(TrimStart(s)[0])
  {
    if s != [] && IsSpace(s[0]) {
      TrimStartStops(s[1..]);
    }
  }

  /** Trimming leaves text with clean ends, and leaves such text alone. */
  lemma TrimTrims(s: string)
    ensures Trimmed(Trim(s))
    ensures Trim(s) == s <==> Trimmed(s)
  {
    TrimStartStops(s);
    TrimEndIsPrefix(TrimStart(s));
  }

  /** The first position at or after which `sep` stands; past the end when it does not. */
  function IndexOf(s: string, sep: string): (i: nat)
    requires sep != []
    ensures i <= |s|
    ensures i < |s| ==> sep <= s[i..]
  {
    if s == [] || sep <= s then 0 else 1 + IndexOf(s[1..], sep)
  }

  predicate Contains(s: string, sep: string)
    requires sep != []
  {
    IndexOf(s, sep) < |s|
  }

  lemma {:induction false} NotBefore(s: string, sep: string, k: nat)
    requires sep != [] && k < |s| && sep <= s[k..]
    ensures IndexOf(s, sep) <= k
  {
    if k > 0 && !(sep <= s) {
      assert s[1..][k - 1..] == s[k..];
      NotBefore(s[1..], sep, k - 1);
    }
  }

  /** A one-character separator stands where that character first does. */
  lemma {:induction false} IndexOfChar(s: string, c: char)
    ensures c !in s[..IndexOf(s, [c])]
    ensures IndexOf(s, [c]) < |s| ==> s[IndexOf(s, [c])] == c
    ensures c in s <==> IndexOf(s, [c]) < |s|
  {
    if s != [] && s[0] != c {
      IndexOfChar(s[1..], c);
      assert s == [s[0]] + s[1..];
      assert s[..IndexOf(s, [c])] == [s[0]] + s[1..][..IndexOf(s[1..], [c])];
    }
  }

  /** Text free of `c`, then `c`: the split is right there. */
  lemma {:induction false} IndexOfJoined(a: string, c: char, b: string)
    requires c !in a
    ensures IndexOf(a + [c] + b, [c]) == |a|
  {
    if a == [] {
      assert (a + [c] + b)[0] == c;
    } else {
      assert (a + [c] + b)[0] == a[0] != c;
      assert (a + [c] + b)[1..] == a[1..] + [c] + b;
      IndexOfJoined(a[1..], c, b);
    }
  }

  /** The text before and after the first `c`. */
  function SplitOnce(s: string, c: char): Option<(string, string)> {
    var i := IndexOf(s, [c]);
    if i < |s| then Some((s[..i], s[i + 1..])) else None
  }

  /** Splitting undoes joining at a character the first part does not hold, and the other way round. */
  lemma SplitJoined(a: string, c: char, b: string)
    requires c !in a
    ensures SplitOnce(a + [c] + b, c) == Some((a, b))
  {
    IndexOfJoined(a, c, b);
    assert (a + [c] + b)[..|a|] == a && (a + [c] + b)[|a| + 1..] == b;
  }

  lemma SplitParts(s: string, c: char)
    ensures SplitOnce(s, c).None? <==> c !in s
    ensures SplitOnce(s, c).Some? ==>
              var (a, b) := SplitOnce(s, c).value;
              c !in a && s == a + [c] + b
  {
    IndexOfChar(s, c);
  }

  /** The parts of `s` between the `c`s: always at least one. */
  function Split(s: string, c: char): seq<string>
    decreases |s|
  {
    var i := IndexOf(s, [c]);
    if i < |s| then [s[..i]] + Split(s[i + 1..], c) else [s]
  }

  function JoinBy(parts: seq<string>, c: char): string {
    if parts == [] then ""
    else if |parts| == 1 then parts[0]
    else parts[0] + [c] + JoinBy(parts[1..], c)
  }

  lemma {:induction false} SplitJoins(s: string, c: char)
    ensures Split(s, c) != [] && JoinBy(Split(s, c), c) == s
    ensures forall p :: p in Split(s, c) ==> c !in p
    decreases |s|
  {
    IndexOfChar(s, c);
    var i := IndexOf(s, [c]);
    if i < |s| {
      SplitJoins(s[i + 1..], c);
      assert Split(s, c)[1..] == Split(s[i + 1..], c);
    }
  }

  lemma {:induction false} JoinSplits(parts: seq<string>, c: char)
    requires parts != [] && forall i | 0 <= i < |parts| :: c !in parts[i]
    ensures Split(JoinBy(parts, c), c) == parts
  {
    IndexOfChar(parts[0], c);
    if |parts| > 1 {
      var rest := JoinBy(parts[1..], c);
      JoinSplits(parts[1..], c);
      IndexOfJoined(parts[0], c, rest);
      assert (parts[0] + [c] + rest)[|parts[0]| + 1..] == rest;
      assert (parts[0] + [c] + rest)[..|parts[0]|] == parts[0];
    }
  }

  /** Text without the character is one part. */
  lemma SplitOfOne(s: string, c: char)
    requires c !in s
    ensures Split(s, c) == [s]
  {
    IndexOfChar(s, c);
  }

  /** What follows `prefix`, if `s` starts with it. */
  function StripPrefix(s: string, prefix: string): Option<string> {
    if prefix <= s then Some(s[|prefix|..]) else None
  }

  /** The text before and after the first `sep`. */
  function SplitAt(s: string, sep: string): Option<(string, string)>
    requires sep != []
  {
    var i := IndexOf(s, sep);
    if i < |s| then Some((s[..i], s[i + |sep|..])) else None
  }

  lemma SplitAtParts(s: string, sep: string, before: string, after: string)
    requires sep != [] && SplitAt(s, sep) == Some((before, after))
    ensures |before| == IndexOf(s, sep) && s == before + (sep + after)
  {
    var i := IndexOf(s, sep);
    assert s[i..] == sep + s[i..][|sep|..];
    assert s[i..][|sep|..] == after;
    assert s == s[..i] + s[i..];
  }
}
