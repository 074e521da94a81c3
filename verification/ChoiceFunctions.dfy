/** Odometers: enumeration of the vectors whose digits stay below given bounds. The first
    digit runs fastest. With one bound for all digits these are the choice functions. */
module ChoiceFunctions {

  ghost predicate InRange(f: seq<nat>, radix: seq<nat>) {
    |f| == |radix| && forall k :: 0 <= k < |f| ==> f[k] < radix[k]
  }

  /** A function from 0..length-1 to 0..arity-1. */
  ghost predicate IsChoice(f: seq<nat>, length: nat, arity: nat) {
    |f| == length && forall k :: 0 <= k < length ==> f[k] < arity
  }

  function Uniform(length: nat, arity: nat): (r: seq<nat>)
    ensures |r| == length && forall k :: 0 <= k < length ==> r[k] == arity
  {
    seq(length, _ => arity)
  }

  /** The order in which the odometer runs: the last digit counts most. */
  predicate Before(f: seq<nat>, g: seq<nat>)
    requires |f| == |g|
  {
    f != [] && (Before(f[1..], g[1..]) || (f[1..] == g[1..] && f[0] < g[0]))
  }

  ghost predicate IsMax(f: seq<nat>, radix: seq<nat>)
    requires |f| == |radix|
  {
    forall k :: 0 <= k < |f| ==> f[k] + 1 == radix[k]
  }

  /** The next reading of the odometer; after the last one it starts again. */
  function Succ(f: seq<nat>, radix: seq<nat>): (g: seq<nat>)
    requires |f| == |radix|
    ensures |g| == |f|
  {
    if f == [] then [] else if f[0] + 1 == radix[0] then [0] + Succ(f[1..], radix[1..]) else [f[0] + 1] + f[1..]
  }

  /** How many readings follow. */
  function Left(f: seq<nat>, radix: seq<nat>): nat
    requires |f| == |radix|
  {
    if f == [] then 0 else (if f[0] < radix[0] then radix[0] - 1 - f[0] else 0) + radix[0] * Left(f[1..], radix[1..])
  }

  lemma {:induction false} SuccInRange(f: seq<nat>, radix: seq<nat>)
    requires InRange(f, radix)
    ensures InRange(Succ(f, radix), radix)
    ensures IsMax(f, radix) ==> Succ(f, radix) == Uniform(|f|, 0)
  {
    if f != [] {
      assert f == [f[0]] + f[1..];
      SuccInRange(f[1..], radix[1..]);
      if IsMax(f, radix) { assert IsMax(f[1..], radix[1..]); }
    }
  }

  lemma OneLess(a: nat, x: int)
    ensures a * (x - 1) == a * x - a
  {
  }

  lemma {:induction false} SuccLeavesFewer(f: seq<nat>, radix: seq<nat>)
    requires InRange(f, radix) && !IsMax(f, radix)
    ensures Left(Succ(f, radix), radix) == Left(f, radix) - 1
  {
    assert f == [f[0]] + f[1..];
    var g := Succ(f, radix);
    if f[0] + 1 == radix[0] {
      assert !IsMax(f[1..], radix[1..]);
      SuccLeavesFewer(f[1..], radix[1..]);
      assert g[1..] == Succ(f[1..], radix[1..]);
      OneLess(radix[0], Left(f[1..], radix[1..]));
    } else {
      assert g[1..] == f[1..];
    }
  }

  /** Nothing is skipped: what comes before the next reading is this one and what comes before it. */
  lemma {:induction false} SuccIsNext(f: seq<nat>, g: seq<nat>, radix: seq<nat>)
    requires InRange(f, radix) && InRange(g, radix) && !IsMax(g, radix)
    ensures Before(f, Succ(g, radix)) <==> Before(f, g) || f == g
  {
    assert g == [g[0]] + g[1..] && f == [f[0]] + f[1..];
    var h := Succ(g, radix);
    if g[0] + 1 == radix[0] {
      assert !IsMax(g[1..], radix[1..]);
      SuccIsNext(f[1..], g[1..], radix[1..]);
      assert h[1..] == Succ(g[1..], radix[1..]);
    } else {
      assert h[1..] == g[1..];
    }
  }

  /** The reading with all digits highest is the last. */
  lemma {:induction false} MaxIsLast(f: seq<nat>, g: seq<nat>, radix: seq<nat>)
    requires InRange(f, radix) && |g| == |radix| && IsMax(g, radix)
    ensures Before(f, g) || f == g
  {
    if g != [] {
      assert g == [g[0]] + g[1..] && f == [f[0]] + f[1..];
      MaxIsLast(f[1..], g[1..], radix[1..]);
    }
  }

  lemma {:induction false} ZeroIsFirst(f: seq<nat>, g: seq<nat>)
    requires |f| == |g| && forall k :: 0 <= k < |g| ==> g[k] == 0
    ensures !Before(f, g)
  {
    if g != [] { ZeroIsFirst(f[1..], g[1..]); }
  }

  /** No reading comes before itself, so none is repeated before the odometer wraps. */
  lemma {:induction false} NotBeforeItself(f: seq<nat>)
    ensures !Before(f, f)
  {
    if f != [] { NotBeforeItself(f[1..]); }
  }

  lemma {:induction false} SuccByCarry(f: seq<nat>, radix: seq<nat>, i: nat)
    requires i < |f| == |radix| && f[i] + 1 != radix[i] && forall k :: 0 <= k < i ==> f[k] + 1 == radix[k]
    ensures Succ(f, radix) == Uniform(i, 0) + [f[i] + 1] + f[i + 1..]
  {
    if i > 0 {
      SuccByCarry(f[1..], radix[1..], i - 1);
      assert Uniform(i, 0) == [0] + Uniform(i - 1, 0);
      assert f[1..][i - 1 + 1..] == f[i + 1..];
    }
  }

  /** Advances the odometer; wrapped tells that it started again. */
  method Advance(f: seq<nat>, radix: seq<nat>) returns (g: seq<nat>, wrapped: bool)
    requires f != [] && InRange(f, radix)
    ensures g == Succ(f, radix) && (wrapped <==> IsMax(f, radix))
  {
    g := f;
    var i := 0;
    while g[i] + 1 == radix[i]
      invariant 0 <= i < |f| == |g|
      invariant forall k :: 0 <= k < i ==> f[k] + 1 == radix[k] && g[k] == 0
      invariant g[i..] == f[i..]
      decreases |f| - i
    {
      assert g[i] == f[i..][0] == f[i];
      g := g[i := 0];
      assert g[i + 1..] == f[i..][1..] == f[i + 1..];
      i := i + 1;
      if i == |f| {
        SuccInRange(f, radix);
        return g, true;
      }
    }
    assert g[i] == f[i..][0] == f[i];
    SuccByCarry(f, radix, i);
    g := g[i := g[i] + 1];
    assert g[i + 1..] == f[i..][1..] == f[i + 1..];
    assert g == g[..i] + [g[i]] + g[i + 1..];
    assert g[..i] == Uniform(i, 0);
    wrapped := false;
  }

  /** The odometer of the complementation: starts with zeros, and next fails after the last. */
  class ChoiceFunction {
    var data: seq<nat>
    const arity: nat

    ghost predicate Valid()
      reads this
    {
      data != [] && IsChoice(data, |data|, arity)
    }

    constructor (size: nat, arity: nat)
      requires size > 0 && arity > 0
      ensures Valid() && data == Uniform(size, 0) && this.arity == arity
    {
      data := Uniform(size, 0);
      this.arity := arity;
    }

    method Next() returns (more: bool)
      requires Valid()
      modifies `data
      ensures Valid() && |data| == old(|data|)
      ensures data == Succ(old(data), Uniform(|data|, arity))
      ensures more <==> !IsMax(old(data), Uniform(|data|, arity))
    {
      SuccInRange(data, Uniform(|data|, arity));
      var wrapped;
      data, wrapped := Advance(data, Uniform(|data|, arity));
      more := !wrapped;
    }
  }

  /** The generator of the inclusion check: starts at the last function, so that the first
      call wraps to zeros, and it is exhausted when it wraps again. */
  class SequentialChoiceFunctionGenerator {
    var currentCf: seq<nat>
    const range: nat
    var lastCnt: nat

    ghost predicate Valid()
      reads this
    {
      && currentCf != [] && IsChoice(currentCf, |currentCf|, range) && lastCnt <= 2
      && (lastCnt == 2 ==> IsMax(currentCf, Uniform(|currentCf|, range)))
    }

    /** The function has been returned. */
    ghost predicate Seen(f: seq<nat>)
      reads this
      requires |f| == |currentCf|
    {
      lastCnt == 0 || (lastCnt == 1 && (Before(f, currentCf) || f == currentCf))
    }

    ghost function Remaining(): nat
      reads this
    {
      Left(currentCf, Uniform(|currentCf|, range))
    }

    constructor (length: nat, range: nat)
      requires length > 0 && range > 0
      ensures Valid() && |currentCf| == length && this.range == range && lastCnt == 2
    {
      currentCf := Uniform(length, range - 1);
      this.range := range;
      lastCnt := 2;
    }

    method GetNext() returns (cf: seq<nat>)
      requires Valid() && lastCnt > 0
      modifies this
      ensures Valid() && cf == currentCf && |currentCf| == old(|currentCf|)
      ensures lastCnt < old(lastCnt) || (lastCnt == old(lastCnt) && Remaining() < old(Remaining()))
      ensures forall f :: IsChoice(f, |currentCf|, range) ==> (Seen(f) <==> old(Seen(f)) || f == cf)
    {
      ghost var before := currentCf;
      var radix := Uniform(|currentCf|, range);
      SuccInRange(currentCf, radix);
      var wrapped;
      currentCf, wrapped := Advance(currentCf, radix);
      if wrapped { lastCnt := lastCnt - 1; }
      cf := currentCf;
      forall f | IsChoice(f, |currentCf|, range) ensures Seen(f) <==> old(Seen(f)) || f == cf {
        if wrapped {
          MaxIsLast(f, before, radix);
          ZeroIsFirst(f, currentCf);
        } else {
          SuccIsNext(f, before, radix);
        }
      }
      if !wrapped { SuccLeavesFewer(before, radix); }
    }
  }
}
