/** Sequence helpers shared by the splitter and the organizer. */
module Seqs {

  /** Python's `''.join(parts)`: the parts concatenated in order, with no separator. */
  function Join(parts: seq<string>): (r: string)
  {
    if |parts| == 0 then "" else parts[0] + Join(parts[1..])
  }

  /** Joining distributes over concatenation of the part lists. */
  lemma {:induction false} JoinAppend(a: seq<string>, b: seq<string>)
    ensures Join(a + b) == Join(a) + Join(b)
  {
    if |a| == 0 {
      assert a + b == b;
    } else {
      assert (a + b)[0] == a[0];
      assert (a + b)[1..] == a[1..] + b;
      JoinAppend(a[1..], b);
    }
  }

  /** The indices j >= i of `s` whose element satisfies `keep`, in increasing order. */
  function PositionsFrom<T>(s: seq<T>, keep: T -> bool, i: nat): (r: seq<nat>)
    requires i <= |s|
    ensures |r| <= |s| - i
    ensures forall k :: 0 <= k < |r| ==> i <= r[k] < |s| && keep(s[r[k]])
    ensures forall k, l :: 0 <= k < l < |r| ==> r[k] < r[l]
    ensures forall j :: i <= j < |s| && keep(s[j]) ==> j in r
    decreases |s| - i
  {
    if i == |s| then []
    else if keep(s[i]) then [i] + PositionsFrom(s, keep, i + 1)
    else PositionsFrom(s, keep, i + 1)
  }

  /** All indices of `s` whose element satisfies `keep`, in increasing order. */
  function Positions<T>(s: seq<T>, keep: T -> bool): (r: seq<nat>)
  {
    PositionsFrom(s, keep, 0)
  }
}
