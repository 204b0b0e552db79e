/** Python's whitespace: `str.isspace`, `str.split` and `str.strip`. */
module Whitespace {
  predicate IsSpace(c: char) {
    var n := c as int;
    || 9 <= n <= 13 || 28 <= n <= 32 || n == 0x85 || n == 0xa0 || n == 0x1680 || 0x2000 <= n <= 0x200a
    || n in {0x2028, 0x2029, 0x202f, 0x205f, 0x3000}
  }

  predicate IsWord(t: string) {
    t != "" && forall c | c in t :: !IsSpace(c)
  }

  /** The length of the word a text starts with. */
  function WordLength(t: string): (n: nat)
    ensures n <= |t|
    ensures forall i | 0 <= i < n :: !IsSpace(t[i])
    ensures n < |t| ==> IsSpace(t[n])
  {
    if t == "" || IsSpace(t[0]) then 0 else WordLength(t[1..]) + 1
  }

  /** `t.split()` */
  function Tokens(t: string): seq<string> {
    if t == "" then []
    else if IsSpace(t[0]) then Tokens(t[1..])
    else [t[..WordLength(t)]] + Tokens(t[WordLength(t)..])
  }

  /** `" ".join(words)` */
  function Join(words: seq<string>): string {
    if words == [] then "" else if |words| == 1 then words[0] else words[0] + " " + Join(words[1..])
  }

  function Normalize(t: string): string {
    Join(Tokens(t))
  }

  function LeadingSpaces(t: string): (n: nat)
    ensures n <= |t|
    ensures forall i | 0 <= i < n :: IsSpace(t[i])
    ensures n < |t| ==> !IsSpace(t[n])
  {
    if t == "" || !IsSpace(t[0]) then 0 else LeadingSpaces(t[1..]) + 1
  }

  function TrailingSpaces(t: string): (n: nat)
    ensures n <= |t|
    ensures forall i | |t| - n <= i < |t| :: IsSpace(t[i])
    ensures n < |t| ==> !IsSpace(t[|t| - n - 1])
  {
    if t == "" || !IsSpace(t[|t| - 1]) then 0 else TrailingSpaces(t[..|t| - 1]) + 1
  }

  /** `t.rstrip()` */
  function StripRight(t: string): string {
    t[..|t| - TrailingSpaces(t)]
  }

  /** `t.strip()` */
  function Strip(t: string): string {
    StripRight(t[LeadingSpaces(t)..])
  }

  // ----- Words and joins -----

  lemma {:induction false} WordAlone(w: string, rest: string)
    requires forall c | c in w :: !IsSpace(c)
    requires rest == "" || IsSpace(rest[0])
    ensures WordLength(w + rest) == |w|
  {
    if w == "" {
      assert w + rest == rest;
    } else {
      assert (w + rest)[1..] == w[1..] + rest;
      WordAlone(w[1..], rest);
    }
  }

  /** A space between two texts separates their words. */
  lemma {:induction false} TokensConcat(a: string, s: char, b: string)
    requires IsSpace(s)
    ensures Tokens(a + [s] + b) == Tokens(a) + Tokens(b)
    decreases |a|
  {
    hide IsSpace;
    var t := a + [s] + b;
    if a == "" {
      assert t[1..] == b;
    } else if IsSpace(a[0]) {
      assert t[1..] == a[1..] + [s] + b;
      TokensConcat(a[1..], s, b);
    } else {
      var n := WordLength(a);
      var rest := a[n..] + [s] + b;
      assert n > 0;
      assert t == a[..n] + rest;
      WordAlone(a[..n], rest);
      FirstWord(a[..n], rest);
      TokensConcat(a[n..], s, b);
    }
  }

  lemma FirstWord(w: string, rest: string)
    requires w != "" && WordLength(w + rest) == |w|
    ensures Tokens(w + rest) == [w] + Tokens(rest)
  {
    var t := w + rest;
    assert t[..|w|] == w && t[|w|..] == rest;
    assert !IsSpace(t[0]);
  }

  lemma {:induction false} TokensAreWords(t: string)
    ensures forall w | w in Tokens(t) :: IsWord(w)
    decreases |t|
  {
    if t != "" {
      if IsSpace(t[0]) {
        TokensAreWords(t[1..]);
      } else {
        TokensAreWords(t[WordLength(t)..]);
        assert IsWord(t[..WordLength(t)]);
      }
    }
  }

  function Separator(a: seq<string>, b: seq<string>): string {
    if a == [] || b == [] then "" else " "
  }

  lemma {:induction false} JoinConcat(a: seq<string>, b: seq<string>)
    ensures Join(a + b) == Join(a) + Separator(a, b) + Join(b)
  {
    if a == [] {
      assert a + b == b;
    } else if |a| == 1 {
      assert b == [] ==> a + b == a;
      assert (a + b)[1..] == b;
    } else {
      assert (a + b)[1..] == a[1..] + b;
      JoinConcat(a[1..], b);
      assert Separator(a[1..], b) == Separator(a, b);
    }
  }

  /** Splitting a joined list of words gives the words back. */
  lemma {:induction false} TokensOfJoin(words: seq<string>)
    requires forall w | w in words :: IsWord(w)
    ensures Tokens(Join(words)) == words
  {
    if words != [] {
      var w := words[0];
      WordTokens(w);
      if |words| > 1 {
        TokensOfJoin(words[1..]);
        assert words[0] + " " + Join(words[1..]) == w + [' '] + Join(words[1..]);
        TokensConcat(w, ' ', Join(words[1..]));
      }
    }
  }

  lemma WordTokens(w: string)
    requires IsWord(w)
    ensures Tokens(w) == [w]
  {
    WordAlone(w, "");
    assert w + "" == w && w[..|w|] == w && w[|w|..] == "";
    assert w[0] in w;
  }

  /** A joined list of words has no whitespace but single blanks between them, and is empty only without words. */
  lemma {:induction false} JoinedSpaces(words: seq<string>)
    requires forall w | w in words :: IsWord(w)
    ensures var t := Join(words);
            && (t == "" <==> words == [])
            && (forall i | 0 <= i < |t| && IsSpace(t[i]) :: t[i] == ' ')
  {
    if |words| > 1 {
      JoinedSpaces(words[1..]);
      assert words[0] in words && words[1] in words;
    } else if words != [] {
      assert words[0] in words;
    }
  }

  /** A slice of a slice. */
  lemma SliceOfSlice<T>(t: seq<T>, n: nat, m: nat)
    requires n + m <= |t|
    ensures t[n..][..m] == t[n..n + m]
  {
  }

  /** What `strip` cuts off is whitespace only. */
  lemma StripKeepsWords(t: string)
    ensures LeadingSpaces(t) + |Strip(t)| <= |t|
    ensures Strip(t) == t[LeadingSpaces(t)..LeadingSpaces(t) + |Strip(t)|]
    ensures forall i | 0 <= i < |t| && !IsSpace(t[i]) :: LeadingSpaces(t) <= i < LeadingSpaces(t) + |Strip(t)|
    ensures Strip(t) != "" ==> !IsSpace(Strip(t)[0]) && !IsSpace(Strip(t)[|Strip(t)| - 1])
  {
    hide IsSpace, LeadingSpaces, TrailingSpaces;
    var n := LeadingSpaces(t);
    var u := t[n..];
    var m := |u| - TrailingSpaces(u);
    SliceOfSlice(t, n, m);
    forall i | 0 <= i < |t| && !IsSpace(t[i])
      ensures n <= i < n + m
    {
      assert i >= n;
      assert u[i - n] == t[i];
    }
    assert |u| > 0 ==> u[0] == t[n];
  }
}
