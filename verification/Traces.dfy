/** Traces: the moments between events, each following from the one before by its event. */
module Traces {
  ghost predicate IsTrace<M(!new), E(!new)>(ok: M -> bool, follows: (E, M, M) -> bool, events: seq<E>, ms: seq<M>) {
    && |ms| == |events| + 1
    && (forall i :: 0 <= i < |ms| ==> ok(ms[i]))
    && (forall i :: 0 <= i < |events| ==> follows(events[i], ms[i], ms[i + 1]))
  }

  lemma NoEvents<M(!new), E(!new)>(ok: M -> bool, follows: (E, M, M) -> bool, events: seq<E>, m: M)
    requires ok(m)
    ensures IsTrace(ok, follows, events[..0], [m])
  {}

  /** One event more. */
  lemma TraceSnoc<M(!new), E(!new)>(ok: M -> bool, follows: (E, M, M) -> bool, events: seq<E>, n: nat, ms: seq<M>, m: M)
    requires n < |events| && IsTrace(ok, follows, events[..n], ms) && ok(m) && follows(events[n], ms[n], m)
    ensures IsTrace(ok, follows, events[..n + 1], ms + [m]) && (ms + [m])[0] == ms[0] && (ms + [m])[n + 1] == m
  {
    var es, ms' := events[..n + 1], ms + [m];
    forall i | 0 <= i < n + 1 ensures follows(es[i], ms'[i], ms'[i + 1]) {
      assert i < n ==> follows(events[..n][i], ms[i], ms[i + 1]);
    }
  }
}
