/**
 One-hot encoding with the first (baseline) category dropped, stated once for
 any attribute: an attribute is given by the ordered list of its non-baseline
 tokens, and a token encodes to one 0/1 indicator per listed token. The
 baseline, and every token not in the list, encodes to all zeros.
 */
module DropFirst {

  function Indicator(b: bool): real {
    if b then 1.0 else 0.0
  }

  predicate Distinct(tokens: seq<string>) {
    forall i, j :: 0 <= i < j < |tokens| ==> tokens[i] != tokens[j]
  }

  /** The indicator group of token `t`. */
  function OneHot(tokens: seq<string>, t: string): seq<real> {
    seq(|tokens|, i requires 0 <= i < |tokens| => Indicator(tokens[i] == t))
  }

  /** The category the encoding can still tell apart: the token itself when it
      is listed, otherwise the baseline. */
  function Category(tokens: seq<string>, baseline: string, t: string): string {
    if t in tokens then t else baseline
  }

  /** Reads a group back: the first listed token whose indicator is 1, or the
      baseline when none is. */
  function Decode(tokens: seq<string>, baseline: string, v: seq<real>): string
    requires |v| == |tokens|
    decreases |tokens|
  {
    if tokens == [] then baseline
    else if v[0] == 1.0 then tokens[0]
    else Decode(tokens[1..], baseline, v[1..])
  }

  function Sum(v: seq<real>): real
    decreases |v|
  {
    if v == [] then 0.0 else v[0] + Sum(v[1..])
  }

  lemma OneHotTail(tokens: seq<string>, t: string)
    requires tokens != []
    ensures OneHot(tokens, t) == [Indicator(tokens[0] == t)] + OneHot(tokens[1..], t)
  {
  }

  /** Every indicator is 0 or 1, and it is 1 exactly at the token's position. */
  lemma OneHotAt(tokens: seq<string>, t: string, k: int)
    requires 0 <= k < |tokens|
    ensures |OneHot(tokens, t)| == |tokens|
    ensures OneHot(tokens, t)[k] == 0.0 || OneHot(tokens, t)[k] == 1.0
    ensures OneHot(tokens, t)[k] == 1.0 <==> tokens[k] == t
  {
  }

  /** Decoding the group of `t` gives back `t` when it is listed and the
      baseline otherwise. */
  lemma {:induction false} DecodeOneHot(tokens: seq<string>, baseline: string, t: string)
    ensures Decode(tokens, baseline, OneHot(tokens, t)) == Category(tokens, baseline, t)
    decreases |tokens|
  {
    if tokens != [] {
      OneHotTail(tokens, t);
      if tokens[0] != t {
        DecodeOneHot(tokens[1..], baseline, t);
        assert t in tokens <==> t in tokens[1..] by {
          if t in tokens {
            var k :| 0 <= k < |tokens| && tokens[k] == t;
            assert tokens[1..][k - 1] == t;
          }
        }
      }
    }
  }

  /** With distinct tokens, the indicators of one group add up to 1 when the
      token is listed and to 0 when it is not: at most one of them is set. */
  lemma {:induction false} OneHotSum(tokens: seq<string>, t: string)
    requires Distinct(tokens)
    ensures Sum(OneHot(tokens, t)) == if t in tokens then 1.0 else 0.0
    decreases |tokens|
  {
    if tokens != [] {
      OneHotTail(tokens, t);
      var v := OneHot(tokens, t);
      assert v[1..] == OneHot(tokens[1..], t);
      OneHotSum(tokens[1..], t);
      if tokens[0] == t {
        assert forall k :: 0 <= k < |tokens[1..]| ==> tokens[1..][k] != t by {
          forall k | 0 <= k < |tokens[1..]| ensures tokens[1..][k] != t {
            assert tokens[1..][k] == tokens[k + 1];
          }
        }
      } else {
        assert t in tokens <==> t in tokens[1..] by {
          if t in tokens {
            var k :| 0 <= k < |tokens| && tokens[k] == t;
            assert tokens[1..][k - 1] == t;
          }
        }
      }
    }
  }

  /** An unlisted token and the baseline share one encoding: all zeros. */
  lemma UnlistedIsAllZero(tokens: seq<string>, t: string)
    ensures t !in tokens <==> OneHot(tokens, t) == seq(|tokens|, _ => 0.0)
  {
    if t in tokens {
      var k :| 0 <= k < |tokens| && tokens[k] == t;
      assert OneHot(tokens, t)[k] == 1.0;
    }
  }

  /** Two tokens encode alike exactly when they fall in the same category. */
  lemma OneHotSameIffSameCategory(tokens: seq<string>, baseline: string, t1: string, t2: string)
    requires baseline !in tokens
    ensures OneHot(tokens, t1) == OneHot(tokens, t2)
            <==> Category(tokens, baseline, t1) == Category(tokens, baseline, t2)
  {
    if OneHot(tokens, t1) == OneHot(tokens, t2) {
      DecodeOneHot(tokens, baseline, t1);
      DecodeOneHot(tokens, baseline, t2);
    }
  }
}
