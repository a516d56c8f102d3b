/** Fixed-width integers of the C sources, and the run of a step function. */
module Machine {

  const TWO16: int := 0x1_0000
  const TWO32: int := 0x1_0000_0000
  const TWO64: int := 0x1_0000_0000_0000_0000

  type byte = x: int | 0 <= x < 0x100
  type uint16 = x: int | 0 <= x < TWO16
  type uint32 = x: int | 0 <= x < TWO32
  type uint64 = x: int | 0 <= x < TWO64

  const MSEC_PER_SEC: nat := 1000

  datatype Option<+T> = None | Some(value: T)

  function Min(a: int, b: int): int {
    if a <= b then a else b
  }

  function Max(a: int, b: int): int {
    if a <= b then b else a
  }

  function One(b: bool): nat {
    if b then 1 else 0
  }
}

/**
 * A concurrent part of the firmware is modelled by a step function over atomic
 * actions. One interleaving is a schedule, a sequence of actions; an action whose
 * guard does not hold leaves the state as it is, because its thread is blocked.
 * A statement about every schedule is a statement about every interleaving.
 */
module Runs {

  function Exec<S, A>(step: (S, A) -> S, s: S, schedule: seq<A>): S {
    if schedule == [] then s else Exec(step, step(s, schedule[0]), schedule[1..])
  }

  lemma {:induction false} ExecConcat<S, A>(step: (S, A) -> S, s: S, first: seq<A>, second: seq<A>)
    ensures Exec(step, s, first + second) == Exec(step, Exec(step, s, first), second)
    decreases |first|
  {
    if first == [] {
      assert first + second == second;
    } else {
      assert (first + second)[1..] == first[1..] + second;
      ExecConcat(step, step(s, first[0]), first[1..], second);
    }
  }

  lemma ExecSnoc<S, A>(step: (S, A) -> S, s: S, schedule: seq<A>, a: A)
    ensures Exec(step, s, schedule + [a]) == step(Exec(step, s, schedule), a)
  {
    ExecConcat(step, s, schedule, [a]);
    var t := Exec(step, s, schedule);
    assert [a][1..] == [];
    assert Exec(step, t, [a]) == Exec(step, step(t, a), []);
  }

  lemma Exec2<S, A>(step: (S, A) -> S, s: S, a: A, b: A)
    ensures Exec(step, s, [a, b]) == step(step(s, a), b)
  {
    assert [a, b] == [a] + [b] && [a][1..] == [];
    ExecSnoc(step, s, [a], b);
    assert Exec(step, s, [a]) == Exec(step, step(s, a), []);
  }

  lemma Exec3<S, A>(step: (S, A) -> S, s: S, a: A, b: A, c: A)
    ensures Exec(step, s, [a, b, c]) == step(step(step(s, a), b), c)
  {
    assert [a, b, c] == [a, b] + [c];
    Exec2(step, s, a, b);
    ExecSnoc(step, s, [a, b], c);
  }

  lemma Exec4<S, A>(step: (S, A) -> S, s: S, a: A, b: A, c: A, d: A)
    ensures Exec(step, s, [a, b, c, d]) == step(step(step(step(s, a), b), c), d)
  {
    assert [a, b, c, d] == [a, b, c] + [d];
    Exec3(step, s, a, b, c);
    ExecSnoc(step, s, [a, b, c], d);
  }
}
