/** The string operations the service uses: str.find, str.rfind and slicing
    for the bracket scan, and a block of lines built by repeated `+=`. */
module Text {
  import opened Wrappers

  /** Python's s.find(c): the first index of c, or -1. */
  function Find(s: string, c: char): (r: int)
    ensures -1 <= r < |s|
    ensures r == -1 <==> c !in s
    ensures r >= 0 ==> s[r] == c && c !in s[..r]
  {
    if s == [] then -1
    else if s[0] == c then 0
    else
      var r := Find(s[1..], c);
      assert s[1..][..r + 1] == s[1..r + 2] by { assert r + 1 <= |s[1..]|; }
      assert r >= 0 ==> s[..r + 1] == [s[0]] + s[1..][..r];
      if r == -1 then -1 else r + 1
  }

  /** Python's s.rfind(c): the last index of c, or -1. */
  function RFind(s: string, c: char): (r: int)
    ensures -1 <= r < |s|
    ensures r == -1 <==> c !in s
    ensures r >= 0 ==> s[r] == c && c !in s[r + 1..]
  {
    if s == [] then -1
    else if s[|s| - 1] == c then |s| - 1
    else
      var r := RFind(s[..|s| - 1], c);
      assert s == s[..|s| - 1] + [s[|s| - 1]];
      assert r >= 0 ==> s[r + 1..] == s[..|s| - 1][r + 1..] + [s[|s| - 1]];
      r
  }

  /** Python's s[i:j] for indices inside the string: the characters from
      index i up to but not including j, none when j <= i. */
  function Slice(s: string, i: int, j: int): (r: string)
    requires 0 <= i <= |s| && 0 <= j <= |s|
    ensures |r| == if i <= j then j - i else 0
    ensures forall k :: 0 <= k < |r| ==> r[k] == s[i + k]
  {
    if i <= j then s[i..j] else ""
  }

  /** The bracket scan of the response interpreters:
      start = s.find('['), end = s.rfind(']') + 1; when either is missing
      there is no payload, otherwise the payload is s[start:end]. */
  function BracketSlice(s: string): (r: Option<string>)
    ensures r.None? <==> '[' !in s || ']' !in s
  {
    var start := Find(s, '[');
    var end := RFind(s, ']') + 1;
    if start == -1 || end == 0 then None else Some(Slice(s, start, end))
  }

  /** Every payload the scan hands to the decoder either runs from the first
      '[' to the last ']' of the reply, both included, or is empty; it is
      empty exactly when every ']' of the reply comes before every '['. */
  lemma BracketSliceShape(s: string)
    requires BracketSlice(s).Some?
    ensures var p := BracketSlice(s).value;
      p != [] ==> Find(s, '[') < RFind(s, ']') && p == s[Find(s, '[')..RFind(s, ']') + 1]
    ensures var p := BracketSlice(s).value;
      p != [] ==> |p| >= 2 && p[0] == '[' && p[|p| - 1] == ']'
    ensures BracketSlice(s).value == [] <==>
      forall i, j :: 0 <= i < |s| && 0 <= j < |s| && s[i] == '[' && s[j] == ']' ==> j < i
  {
    var i, j := Find(s, '['), RFind(s, ']');
    if i <= j {
      BracketsInOrder(s, i, j);
    } else {
      BracketsReversed(s, i, j);
    }
  }

  /** The first '[' before the last ']': the slice between them, both
      included, is the payload and some '[' precedes some ']'. */
  lemma BracketsInOrder(s: string, i: int, j: int)
    requires i == Find(s, '[') && j == RFind(s, ']') && 0 <= i <= j
    ensures i < j && |s[i..j + 1]| >= 2 && s[i..j + 1][0] == '[' && s[i..j + 1][j - i] == ']'
  {
    assert s[i] != s[j];
  }

  /** The last ']' before the first '[': every ']' precedes every '['. */
  lemma BracketsReversed(s: string, i: int, j: int)
    requires i == Find(s, '[') && j == RFind(s, ']') && 0 <= j < i
    ensures forall a, b :: 0 <= a < |s| && 0 <= b < |s| && s[a] == '[' && s[b] == ']' ==> b < a
  {
    FindIsFirst(s, '[');
    RFindIsLast(s, ']');
  }

  /** No occurrence of c comes before s.find(c). */
  lemma FindIsFirst(s: string, c: char)
    ensures forall a :: 0 <= a < |s| && s[a] == c ==> Find(s, c) <= a
  {
    var i := Find(s, c);
    assert forall a :: 0 <= a < i ==> s[..i][a] == s[a];
  }

  /** No occurrence of c comes after s.rfind(c). */
  lemma RFindIsLast(s: string, c: char)
    ensures forall b :: 0 <= b < |s| && s[b] == c ==> b <= RFind(s, c)
  {
    var j := RFind(s, c);
    assert forall b :: j < b < |s| ==> s[j + 1..][b - j - 1] == s[b];
  }

  /** The text built by appending render(x) for each x of xs in turn. */
  function Lines<T>(render: T -> string, xs: seq<T>): string
    decreases |xs|
  {
    if xs == [] then "" else Lines(render, xs[..|xs| - 1]) + render(xs[|xs| - 1])
  }

  /** A `for x in xs: text += render(x)` loop. */
  method AppendLines<T>(text: string, render: T -> string, xs: seq<T>) returns (r: string)
    ensures r == text + Lines(render, xs)
  {
    r := text;
    var i := 0;
    while i < |xs|
      invariant 0 <= i <= |xs|
      invariant r == text + Lines(render, xs[..i])
    {
      assert xs[..i + 1][..i] == xs[..i];
      r := r + render(xs[i]);
      i := i + 1;
    }
    assert xs[..i] == xs;
  }

  /** The middle piece of a three-part text sits right after the first. */
  lemma Between(x: string, y: string, z: string)
    ensures (x + y + z)[|x|..|x| + |y|] == y
    ensures (x + y + z)[..|x|] == x
    ensures (x + y + z)[|x| + |y|..] == z
  {
    assert (x + y + z)[..|x|] == x;
  }

  /** A line inside a block, inside a text: regrouping puts the line between
      everything before it and everything after it. */
  lemma RegroupAroundLine(p: string, a: string, line: string, b: string, q: string)
    ensures p + (a + line + b) + q == (p + a) + line + (b + q)
  {
  }

  /** A section (heading, block, tail) after a front part: the heading joins
      the front. */
  lemma FlattenSection(x: string, h: string, l: string, t: string)
    ensures x + (h + l + t) == (x + h) + l + t
  {
  }

  /** A six-part text seen as its first part, the middle four together and
      its last part. */
  lemma GroupMiddle(o: string, a: string, b: string, c: string, d: string, r: string)
    ensures o + a + b + c + d + r == o + (a + b + c + d) + r
  {
  }

  /** Appending a heading, a block and two closing pieces one by one is
      appending the heading, the block and the joined closing as a section. */
  lemma AppendSection(x: string, h: string, l: string, a: string, b: string)
    ensures x + h + l + a + b == x + (h + l + (a + b))
  {
  }

  /** A five-part text seen as its first two parts and the last three
      together. */
  lemma GroupTail(a: string, b: string, c: string, d: string, e: string)
    ensures (a + b + c) + d + e == a + b + (c + d + e)
  {
  }

  /** A piece of the middle part of a text, found at its offset. */
  lemma Slot(p: string, mid: string, q: string, a: string, line: string, b: string)
    requires mid == a + line + b
    ensures |p| + |a| + |line| <= |p + mid + q|
    ensures (p + mid + q)[|p| + |a|..|p| + |a| + |line|] == line
  {
    RegroupAroundLine(p, a, line, b, q);
    Between(p + a, line, b + q);
  }

  /** In a text made of a prefix, a block of lines and a suffix, the line of
      the k-th element sits right after the prefix and the earlier lines. */
  lemma LineInText<T>(p: string, render: T -> string, xs: seq<T>, q: string, k: nat)
    requires k < |xs|
    ensures var o := |p| + |Lines(render, xs[..k])|;
            o + |render(xs[k])| <= |p + Lines(render, xs) + q|
            && (p + Lines(render, xs) + q)[o..o + |render(xs[k])|] == render(xs[k])
  {
    LinesAt(render, xs, k);
    Slot(p, Lines(render, xs), q, Lines(render, xs[..k]), render(xs[k]), Lines(render, xs[k + 1..]));
  }

  /** In a text made of a front part and a section (a heading, a block of
      lines, a tail), the k-th line sits right after the front, the heading
      and the earlier lines. */
  lemma LineInSection<T>(x: string, h: string, render: T -> string, xs: seq<T>, t: string, k: nat)
    requires k < |xs|
    ensures var o := |x + h| + |Lines(render, xs[..k])|;
            o + |render(xs[k])| <= |x + (h + Lines(render, xs) + t)|
            && (x + (h + Lines(render, xs) + t))[o..o + |render(xs[k])|] == render(xs[k])
  {
    FlattenSection(x, h, Lines(render, xs), t);
    LineInText(x + h, render, xs, t, k);
  }

  /** The line of the k-th element sits right after the lines of the
      elements before it, and the lines of the later ones follow it. */
  lemma {:induction false} LinesAt<T>(render: T -> string, xs: seq<T>, k: nat)
    requires k < |xs|
    ensures Lines(render, xs) == Lines(render, xs[..k]) + render(xs[k]) + Lines(render, xs[k + 1..])
    decreases |xs|
  {
    var n := |xs|;
    var init := xs[..n - 1];
    if k == n - 1 {
      assert xs[..k] == init;
      assert xs[k + 1..] == [];
    } else {
      LinesAt(render, init, k);
      assert init[..k] == xs[..k];
      assert init[k + 1..] == xs[k + 1..][..|xs[k + 1..]| - 1];
      assert xs[k + 1..][|xs[k + 1..]| - 1] == xs[n - 1];
    }
  }
}
