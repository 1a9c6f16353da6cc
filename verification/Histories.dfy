/** What a list of steps leaves behind in one place: a value is put there, may be
    replaced, and may be taken away.  Components use it to say what their state is
    in terms of the steps alone. */
module Histories {
  import opened Collections

  /** The value at a key, if there is one. */
  function Get<K, V>(m: map<K, V>, k: K): Option<V> {
    if k in m then Some(m[k]) else None
  }

  /** What one step makes of the value. */
  ghost function Then<T, V>(was: Option<V>, step: T, puts: T -> Option<V>, takes: (T, V) -> bool): Option<V> {
    if puts(step).Some? then puts(step)
    else if was.Some? && takes(step, was.value) then None
    else was
  }

  ghost function After<T, V>(was: Option<V>, steps: seq<T>, puts: T -> Option<V>, takes: (T, V) -> bool): Option<V>
    decreases |steps|
  {
    if steps == [] then was else After(Then(was, steps[0], puts, takes), steps[1..], puts, takes)
  }

  lemma {:induction false} AfterSnoc<T, V>(was: Option<V>, steps: seq<T>, step: T, puts: T -> Option<V>,
                                           takes: (T, V) -> bool)
    ensures After(was, steps + [step], puts, takes) == Then(After(was, steps, puts, takes), step, puts, takes)
    decreases |steps|
  {
    if steps == [] {
      assert ([] + [step])[1..] == [];
    } else {
      assert (steps + [step])[1..] == steps[1..] + [step];
      AfterSnoc(Then(was, steps[0], puts, takes), steps[1..], step, puts, takes);
    }
  }

  /** Step i puts v, and no later one replaces it or takes it away. */
  ghost predicate PutLast<T, V>(steps: seq<T>, i: int, v: V, puts: T -> Option<V>, takes: (T, V) -> bool) {
    && 0 <= i < |steps| && puts(steps[i]) == Some(v)
    && forall j :: i < j < |steps| ==> puts(steps[j]).None? && !takes(steps[j], v)
  }

  /** No step replaces v or takes it away. */
  ghost predicate Keeps<T, V>(steps: seq<T>, v: V, puts: T -> Option<V>, takes: (T, V) -> bool) {
    forall j :: 0 <= j < |steps| ==> puts(steps[j]).None? && !takes(steps[j], v)
  }

  lemma KeepsCons<T, V>(steps: seq<T>, v: V, puts: T -> Option<V>, takes: (T, V) -> bool)
    requires steps != []
    ensures Keeps(steps, v, puts, takes)
            <==> puts(steps[0]).None? && !takes(steps[0], v) && Keeps(steps[1..], v, puts, takes)
  {
    var rest := steps[1..];
    assert forall j :: 0 <= j < |rest| ==> rest[j] == steps[j + 1];
    assert forall j :: 0 < j < |steps| ==> steps[j] == rest[j - 1];
  }

  lemma PutLastCons<T, V>(steps: seq<T>, v: V, puts: T -> Option<V>, takes: (T, V) -> bool)
    requires steps != []
    ensures (exists i :: PutLast(steps, i, v, puts, takes))
            <==> || (exists i :: PutLast(steps[1..], i, v, puts, takes))
                 || (puts(steps[0]) == Some(v) && Keeps(steps[1..], v, puts, takes))
  {
    var rest := steps[1..];
    assert forall j :: 0 <= j < |rest| ==> rest[j] == steps[j + 1];
    assert forall j :: 0 < j < |steps| ==> steps[j] == rest[j - 1];
    if i :| PutLast(steps, i, v, puts, takes) {
      if i > 0 {
        assert PutLast(rest, i - 1, v, puts, takes);
      }
    }
    if i :| PutLast(rest, i, v, puts, takes) {
      assert PutLast(steps, i + 1, v, puts, takes);
    }
    if puts(steps[0]) == Some(v) && Keeps(rest, v, puts, takes) {
      assert PutLast(steps, 0, v, puts, takes);
    }
  }

  lemma {:induction false} AfterFrom<T, V>(was: Option<V>, steps: seq<T>, v: V, puts: T -> Option<V>,
                                           takes: (T, V) -> bool)
    ensures After(was, steps, puts, takes) == Some(v)
            <==> || (exists i :: PutLast(steps, i, v, puts, takes))
                 || (was == Some(v) && Keeps(steps, v, puts, takes))
    decreases |steps|
  {
    if steps != [] {
      AfterFrom(Then(was, steps[0], puts, takes), steps[1..], v, puts, takes);
      KeepsCons(steps, v, puts, takes);
      PutLastCons(steps, v, puts, takes);
      hide Keeps, PutLast;
    }
  }

  /** From nothing: the value is v exactly if some step put v and no later one
      replaced it or took it away. */
  lemma AfterExactly<T, V>(steps: seq<T>, v: V, puts: T -> Option<V>, takes: (T, V) -> bool)
    ensures After(None, steps, puts, takes) == Some(v) <==> exists i :: PutLast(steps, i, v, puts, takes)
  {
    AfterFrom(None, steps, v, puts, takes);
  }
}
