/** Words that carry an end-of-packet mark beside their data, and how many packets end in a string of them. */
module EndMarks {

  datatype Word<T> = Word(last: bool, data: T)

  function Lasts<T>(words: seq<Word<T>>): nat {
    if words == [] then 0 else Lasts(words[..|words| - 1]) + (if words[|words| - 1].last then 1 else 0)
  }

  lemma {:induction false} LastsAppend<T>(a: seq<Word<T>>, b: seq<Word<T>>)
    ensures Lasts(a + b) == Lasts(a) + Lasts(b)
    decreases |b|
  {
    if b == [] {
      assert a + b == a;
    } else {
      assert (a + b)[..|a + b| - 1] == a + b[..|b| - 1];
      LastsAppend(a, b[..|b| - 1]);
    }
  }

  lemma LastsSplit<T>(a: seq<Word<T>>, k: nat)
    requires k <= |a|
    ensures Lasts(a) == Lasts(a[..k]) + Lasts(a[k..])
  {
    assert a == a[..k] + a[k..];
    LastsAppend(a[..k], a[k..]);
  }

  lemma LastsOfNone<T>()
    ensures Lasts<T>([]) == 0
  {
  }

  lemma LastsOfOne<T>(w: Word<T>)
    ensures Lasts([w]) == if w.last then 1 else 0
  {
    assert [w][..0] == [];
    assert Lasts([w]) == Lasts([w][..0]) + (if w.last then 1 else 0);
  }

  lemma LastsBound<T>(a: seq<Word<T>>, k: nat)
    requires k < |a| && a[k].last
    ensures Lasts(a) > 0
  {
    LastsSplit(a, k);
    LastsSplit(a[k..], 1);
    assert a[k..][..1] == [a[k]];
    LastsOfOne(a[k]);
  }

  /** Where packets end there is a first end. */
  lemma {:induction false} FirstEnd<T>(a: seq<Word<T>>) returns (k: nat)
    requires Lasts(a) > 0
    ensures k < |a| && a[k].last && forall j :: 0 <= j < k ==> !a[j].last
    decreases |a|
  {
    var n := |a| - 1;
    if Lasts(a[..n]) > 0 {
      k := FirstEnd(a[..n]);
    } else {
      k := n;
      forall j | 0 <= j < n
        ensures !a[j].last
      {
        if a[..n][j].last {
          LastsBound(a[..n], j);
        }
      }
    }
  }
}
