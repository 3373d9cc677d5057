/** How `String.prototype.match` with a non-global regular expression picks its match: it tries the
    pattern at index 0, 1, ... in turn and returns the first index where the pattern matches, with the
    captures of the engine's first successful way of matching there. */
module Regex {
  import opened Options

  /** The leftmost index `i` with `from <= i <= |s|` at which `at` matches, with its match. */
  function Leftmost<M>(s: string, from: nat, at: (string, nat) -> Option<M>): (r: Option<(nat, M)>)
    ensures r.Some? ==> from <= r.value.0 <= |s| && at(s, r.value.0) == Some(r.value.1)
    ensures r.Some? ==> forall j :: from <= j < r.value.0 ==> at(s, j).None?
    ensures r.None? ==> forall j :: from <= j <= |s| ==> at(s, j).None?
    decreases |s| + 1 - from
  {
    if from > |s| then None
    else match at(s, from)
      case Some(m) => Some((from, m))
      case None => Leftmost(s, from + 1, at)
  }

  /** No index of `s` starts an occurrence of the pattern described by `P`. */
  ghost predicate NoneMatch<M(!new)>(P: (string, nat, M) -> bool, s: string)
  {
    forall i: nat, m: M :: i <= |s| ==> !P(s, i, m)
  }

  /** `m` occurs at `i`, and no occurrence of any kind starts further left. */
  ghost predicate IsFirst<M(!new)>(P: (string, nat, M) -> bool, s: string, i: nat, m: M)
  {
    i <= |s| && P(s, i, m) && forall j: nat, h: M :: j < i ==> !P(s, j, h)
  }

  /** When `at` decides the pattern `P` exactly, the leftmost search finds the first occurrence of `P`,
      and finds nothing exactly when `P` occurs nowhere. */
  lemma LeftmostFindsFirst<M(!new)>(s: string, at: (string, nat) -> Option<M>, P: (string, nat, M) -> bool)
    requires forall i: nat, m: M :: at(s, i) == Some(m) <==> P(s, i, m)
    ensures Leftmost(s, 0, at).None? <==> NoneMatch(P, s)
    ensures forall i: nat, m: M :: Leftmost(s, 0, at) == Some((i, m)) <==> IsFirst(P, s, i, m)
  {
    var r := Leftmost(s, 0, at);
    if r.Some? {
      var (k, g) := r.value;
      assert P(s, k, g);
      forall i: nat, m: M | IsFirst(P, s, i, m) ensures (i, m) == (k, g) {
        assert at(s, i) == Some(m);
      }
    } else {
      forall i: nat, m: M | i <= |s| ensures !P(s, i, m) {
        assert at(s, i).None?;
      }
    }
  }
}
