// Facts about any shift register: how it behaves when iterated and when it is
// driven by a message. The register type is left abstract so that none of
// these proofs depends on bit patterns.
module Lfsr {

  function Iterate<W>(turn: W -> W, c: W, n: nat): W
    decreases n
  {
    if n == 0 then c else Iterate(turn, turn(c), n - 1)
  }

  /** The register `c` after the message has gone through it. */
  function Drive<W, B>(step: (W, B) -> W, c: W, message: seq<B>): W
    decreases |message|
  {
    if message == [] then c else Drive(step, step(c, message[0]), message[1..])
  }

  ghost predicate DistributesAt<W>(turn: W -> W, add: (W, W) -> W, x: W, y: W) {
    turn(add(x, y)) == add(turn(x), turn(y))
  }

  ghost predicate Linear<W(!new)>(turn: W -> W, add: (W, W) -> W) {
    forall x, y :: DistributesAt(turn, add, x, y)
  }

  ghost predicate Injective<W(!new)>(turn: W -> W) {
    forall x, y :: turn(x) == turn(y) ==> x == y
  }

  lemma {:induction false} IterateLinear<W(!new)>(turn: W -> W, add: (W, W) -> W, x: W, y: W, n: nat)
    requires Linear(turn, add)
    ensures Iterate(turn, add(x, y), n) == add(Iterate(turn, x, n), Iterate(turn, y, n))
    decreases n
  {
    if n > 0 {
      assert DistributesAt(turn, add, x, y);
      IterateLinear(turn, add, turn(x), turn(y), n - 1);
    }
  }

  lemma {:induction false} IterateInjective<W(!new)>(turn: W -> W, x: W, y: W, n: nat)
    requires Injective(turn)
    requires Iterate(turn, x, n) == Iterate(turn, y, n)
    ensures x == y
    decreases n
  {
    if n > 0 {
      IterateInjective(turn, turn(x), turn(y), n - 1);
    }
  }

  lemma {:induction false} IterateSplit<W>(turn: W -> W, c: W, m: nat, n: nat)
    ensures Iterate(turn, c, m + n) == Iterate(turn, Iterate(turn, c, m), n)
    decreases m
  {
    if m > 0 {
      IterateSplit(turn, turn(c), m - 1, n);
    }
  }

  lemma {:induction false} DriveSplit<W, B>(step: (W, B) -> W, c: W, s: seq<B>, t: seq<B>)
    ensures Drive(step, c, s + t) == Drive(step, Drive(step, c, s), t)
    decreases |s|
  {
    if s == [] {
      assert s + t == t;
    } else {
      assert (s + t)[1..] == s[1..] + t;
      DriveSplit(step, step(c, s[0]), s[1..], t);
    }
  }

  /** Two registers that end equal under the same message started equal. */
  lemma {:induction false} DriveInjective<W(!new), B(!new)>(step: (W, B) -> W, x: W, y: W, message: seq<B>)
    requires forall b, v, w :: step(v, b) == step(w, b) ==> v == w
    requires Drive(step, x, message) == Drive(step, y, message)
    ensures x == y
    decreases |message|
  {
    if message != [] {
      DriveInjective(step, step(x, message[0]), step(y, message[0]), message[1..]);
    }
  }

  /** Steps that agree everywhere drive the register to the same place. */
  lemma {:induction false} DriveAgree<W(!new), B(!new)>(f: (W, B) -> W, g: (W, B) -> W, c: W, message: seq<B>)
    requires forall w, b :: f(w, b) == g(w, b)
    ensures Drive(f, c, message) == Drive(g, c, message)
    decreases |message|
  {
    if message != [] {
      DriveAgree(f, g, f(c, message[0]), message[1..]);
    }
  }
}
