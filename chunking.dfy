/** How the split loop cuts the token stream into runs: a run is flushed each
    time the buffer holds bufferSize tokens, and whatever is left at the end
    becomes one last, shorter run. A buffer size of 0 or less never fills, so
    then the whole stream is one run. */
module Chunking {
  import opened TokenOrder

  /** The chunks of s, in order, for buffer size b. */
  function Chunks(s: seq<Token>, b: int): seq<seq<Token>>
    decreases |s|
  {
    if s == [] then []
    else if b > 0 && |s| > b then [s[..b]] + Chunks(s[b..], b)
    else [s]
  }

  /** The tokens of all chunks, one chunk after the other. */
  function Concat(cs: seq<seq<Token>>): seq<Token>
  {
    if cs == [] then [] else cs[0] + Concat(cs[1..])
  }

  lemma {:induction false} ConcatAppend(a: seq<seq<Token>>, b: seq<seq<Token>>)
    ensures Concat(a + b) == Concat(a) + Concat(b)
  {
    if a != [] {
      assert (a + b)[1..] == a[1..] + b;
      ConcatAppend(a[1..], b);
    } else {
      assert a + b == b;
    }
  }

  lemma ConcatMultiset(a: seq<seq<Token>>, b: seq<seq<Token>>)
    ensures multiset(Concat(a + b)) == multiset(Concat(a)) + multiset(Concat(b))
  {
    ConcatAppend(a, b);
  }

  /** Chunking loses and reorders nothing: the chunks concatenate back to
      the input. */
  lemma {:induction false} ChunksConcat(s: seq<Token>, b: int)
    ensures Concat(Chunks(s, b)) == s
  {
    if s != [] && b > 0 && |s| > b {
      ChunksConcat(s[b..], b);
      assert s == s[..b] + s[b..];
      assert ([s[..b]] + Chunks(s[b..], b))[1..] == Chunks(s[b..], b);
    }
  }

  /** With a positive buffer size b: every chunk but the last holds exactly b
      tokens, the last holds 1..b, and an empty input gives no chunk. */
  lemma {:induction false} ChunksShape(s: seq<Token>, b: int)
    requires b > 0
    ensures var cs := Chunks(s, b);
      && (cs == [] <==> s == [])
      && (forall i :: 0 <= i < |cs| - 1 ==> |cs[i]| == b)
      && (cs != [] ==> 1 <= |cs[|cs| - 1]| <= b)
  {
    if s != [] && |s| > b {
      ChunksShape(s[b..], b);
      var rest := Chunks(s[b..], b);
      var cs := Chunks(s, b);
      assert cs == [s[..b]] + rest;
      assert forall i :: 1 <= i < |cs| ==> cs[i] == rest[i - 1];
    }
  }

  /** There are ceil(|s| / b) chunks: the smallest count whose full chunks
      cover s. */
  lemma {:induction false} ChunksCount(s: seq<Token>, b: int)
    requires b > 0 && s != []
    ensures (|Chunks(s, b)| - 1) * b < |s| <= |Chunks(s, b)| * b
  {
    if |s| > b {
      ChunksCount(s[b..], b);
      var k := |Chunks(s[b..], b)|;
      assert |Chunks(s, b)| == k + 1;
      assert (k + 1) * b == k * b + b;
      assert (k - 1) * b == k * b - b;
    }
  }

  /** A buffer size of 0 or less never triggers a flush. */
  lemma ChunksUnbounded(s: seq<Token>, b: int)
    requires b <= 0
    ensures Chunks(s, b) == if s == [] then [] else [s]
  {
  }

  /** k times b, as repeated addition: the number of tokens in k full
      chunks of size b. */
  function Times(k: nat, b: int): int
  {
    if k == 0 then 0 else Times(k - 1, b) + b
  }

  /** Chunking a prefix made of k whole chunks and then the rest is
      chunking the whole. This is how the split loop's run list grows. */
  lemma {:induction false} ChunksAppend(a: seq<Token>, c: seq<Token>, b: int, k: nat)
    requires b > 0 && |a| == Times(k, b)
    ensures Chunks(a + c, b) == Chunks(a, b) + Chunks(c, b)
  {
    if k == 0 {
      assert a == [] && a + c == c;
    } else if k == 1 {
      assert |a| == b;
      if c == [] {
        assert a + c == a;
      } else {
        assert (a + c)[..b] == a && (a + c)[b..] == c;
      }
    } else {
      assert |a| == Times(k - 1, b) + b;
      assert Times(k - 1, b) > 0 by {
        assert Times(k - 1, b) == Times(k - 2, b) + b;
        TimesNonNegative(k - 2, b);
      }
      assert (a + c)[..b] == a[..b] && (a + c)[b..] == a[b..] + c;
      ChunksAppend(a[b..], c, b, k - 1);
    }
  }

  lemma {:induction false} TimesNonNegative(k: nat, b: int)
    requires b > 0
    ensures Times(k, b) >= 0
  {
    if k > 0 {
      TimesNonNegative(k - 1, b);
    }
  }

  /** Replacing chunk r by c replaces its tokens in the concatenation. */
  lemma ConcatUpdate(cs: seq<seq<Token>>, r: nat, c: seq<Token>)
    requires r < |cs|
    ensures multiset(Concat(cs[r := c])) + multiset(cs[r]) == multiset(Concat(cs)) + multiset(c)
    ensures |Concat(cs[r := c])| + |cs[r]| == |Concat(cs)| + |c|
  {
    var u := cs[r := c];
    assert cs == cs[..r] + [cs[r]] + cs[r + 1..];
    assert u == cs[..r] + [c] + cs[r + 1..];
    ConcatAppend(cs[..r] + [cs[r]], cs[r + 1..]);
    ConcatAppend(cs[..r], [cs[r]]);
    ConcatAppend(cs[..r] + [c], cs[r + 1..]);
    ConcatAppend(cs[..r], [c]);
    assert Concat([cs[r]]) == cs[r];
    assert Concat([c]) == c;
  }

  lemma ConcatSnoc(cs: seq<seq<Token>>, c: seq<Token>)
    ensures Concat(cs + [c]) == Concat(cs) + c
  {
    ConcatAppend(cs, [c]);
    assert Concat([c]) == c;
  }

  /** Taking the first token off chunk r takes it off the concatenation. */
  lemma ConcatTail(cs: seq<seq<Token>>, r: nat)
    requires r < |cs| && cs[r] != []
    ensures multiset(Concat(cs)) == multiset(Concat(cs[r := cs[r][1..]])) + multiset{cs[r][0]}
    ensures |Concat(cs[r := cs[r][1..]])| < |Concat(cs)|
  {
    var t := cs[r][1..];
    var u := cs[r := t];
    assert cs == cs[..r] + [cs[r]] + cs[r + 1..];
    assert u == cs[..r] + [t] + cs[r + 1..];
    ConcatAppend(cs[..r] + [cs[r]], cs[r + 1..]);
    ConcatSnoc(cs[..r], cs[r]);
    ConcatAppend(cs[..r] + [t], cs[r + 1..]);
    ConcatSnoc(cs[..r], t);
    var a, c := Concat(cs[..r]), Concat(cs[r + 1..]);
    assert Concat(cs) == a + [cs[r][0]] + t + c by {
      assert cs[r] == [cs[r][0]] + t;
    }
    assert Concat(u) == a + t + c;
  }

  lemma {:induction false} ConcatOfEmpties(rest: seq<seq<Token>>)
    requires forall r :: 0 <= r < |rest| ==> rest[r] == []
    ensures Concat(rest) == []
  {
    if rest != [] {
      ConcatOfEmpties(rest[1..]);
    }
  }
}
