/**
 Vocabulary shared by the rest of the model: a `Result` type for the places
 where the program raises instead of returning, the exceptions it raises,
 concatenation of a list of lists (Python's `list.extend` in a loop) and
 order-preserving subsequences.
 */
module Common {

  /** Either a value, or the reason the program would have raised. */
  datatype Result<+T, +E> = Ok(value: T) | Err(error: E)

  /** The Python exceptions the modelled code lets escape. */
  datatype Raised =
    | KeyError(key: string)   // a missing DataFrame column or dict key
    | IndexError              // a list index past the end

  /** The concatenation of all the lists in `xss`, in order. */
  function Flatten<T>(xss: seq<seq<T>>): seq<T>
  {
    if |xss| == 0 then [] else xss[0] + Flatten(xss[1..])
  }

  lemma {:induction false} FlattenAppend<T>(a: seq<seq<T>>, b: seq<seq<T>>)
    ensures Flatten(a + b) == Flatten(a) + Flatten(b)
    decreases |a|
  {
    if |a| == 0 {
      assert a + b == b;
    } else {
      assert (a + b)[1..] == a[1..] + b;
      FlattenAppend(a[1..], b);
    }
  }

  lemma FlattenSingle<T>(x: seq<T>)
    ensures Flatten([x]) == x
  {
    assert [x][1..] == [];
  }

  /** Every element of one of the lists is an element of the concatenation. */
  lemma {:induction false} FlattenMember<T>(xss: seq<seq<T>>, k: nat, x: T)
    requires k < |xss| && x in xss[k]
    ensures x in Flatten(xss)
    decreases k
  {
    if k > 0 {
      FlattenMember(xss[1..], k - 1, x);
    }
  }

  /** `xs` is obtained from `ys` by deleting elements, keeping the order of the rest. */
  ghost predicate IsSubsequence<T>(xs: seq<T>, ys: seq<T>)
    decreases |ys|
  {
    if |xs| == 0 then true
    else if |ys| == 0 then false
    else if xs[0] == ys[0] then IsSubsequence(xs[1..], ys[1..])
    else IsSubsequence(xs, ys[1..])
  }

  /** Removing the first element of a subsequence leaves a subsequence. */
  lemma {:induction false} SubsequenceDropHead<T>(xs: seq<T>, ys: seq<T>)
    requires |xs| > 0 && IsSubsequence(xs, ys)
    ensures IsSubsequence(xs[1..], ys)
    decreases |ys|, 0
  {
    if xs[0] == ys[0] {
      SubsequenceWeaken(xs[1..], ys[1..], ys[0]);
    } else {
      SubsequenceDropHead(xs, ys[1..]);
      SubsequenceWeaken(xs[1..], ys[1..], ys[0]);
    }
    assert [ys[0]] + ys[1..] == ys;
  }

  /** Adding an element in front of the larger sequence keeps a subsequence. */
  lemma {:induction false} SubsequenceWeaken<T>(xs: seq<T>, ys: seq<T>, y: T)
    requires IsSubsequence(xs, ys)
    ensures IsSubsequence(xs, [y] + ys)
    decreases |ys|, 1
  {
    assert ([y] + ys)[1..] == ys;
    if |xs| > 0 && xs[0] == y {
      SubsequenceDropHead(xs, ys);
    }
  }

  /** Subsequences of two lists concatenate to a subsequence of their concatenation. */
  lemma {:induction false} SubsequenceAppend<T>(a: seq<T>, b: seq<T>, c: seq<T>, d: seq<T>)
    requires IsSubsequence(a, b) && IsSubsequence(c, d)
    ensures IsSubsequence(a + c, b + d)
    decreases |b|
  {
    if |b| == 0 {
      assert a == [];
      assert a + c == c && b + d == d;
    } else {
      assert (b + d)[1..] == b[1..] + d;
      if |a| > 0 && a[0] == b[0] {
        SubsequenceAppend(a[1..], b[1..], c, d);
        assert (a + c)[1..] == a[1..] + c;
      } else {
        SubsequenceAppend(a, b[1..], c, d);
        SubsequenceWeaken(a + c, b[1..] + d, b[0]);
        assert [b[0]] + (b[1..] + d) == b + d;
      }
    }
  }
}
