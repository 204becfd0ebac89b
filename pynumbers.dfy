/**
 * The numeric types the payment code mixes: Python ints, the Decimal values
 * the MySQL driver returns for DECIMAL columns, and the floats that float()
 * makes of form text and of stored amounts. Values are in centavos; the type
 * alone decides whether an addition or subtraction raises.
 */
module PyNumbers {
  import opened Common

  datatype Kind = IntKind | DecimalKind | FloatKind

  datatype Num = Num(kind: Kind, value: int)

  /** Python refuses `+` and `-` between a Decimal and a float, in either order (TypeError). */
  predicate Clash(a: Kind, b: Kind) {
    (a == DecimalKind && b == FloatKind) || (a == FloatKind && b == DecimalKind)
  }

  /** The type of a result: an int takes the type of the other operand. */
  function Joined(a: Kind, b: Kind): Kind {
    if a == IntKind then b else a
  }

  /** `a + b`: None when it raises. */
  function Add(a: Num, b: Num): (r: Option<Num>)
    ensures r.None? <==> Clash(a.kind, b.kind)
    ensures r.Some? ==> r.value == Num(Joined(a.kind, b.kind), a.value + b.value)
  {
    if Clash(a.kind, b.kind) then None else Some(Num(Joined(a.kind, b.kind), a.value + b.value))
  }

  /** `a - b`: None when it raises. */
  function Sub(a: Num, b: Num): (r: Option<Num>)
    ensures r.None? <==> Clash(a.kind, b.kind)
    ensures r.Some? ==> r.value == Num(Joined(a.kind, b.kind), a.value - b.value)
  {
    if Clash(a.kind, b.kind) then None else Some(Num(Joined(a.kind, b.kind), a.value - b.value))
  }

  /** `total = 0`, then `total += x` for each x in order; None once an addition raises. */
  function Sum(xs: seq<Num>): Option<Num> {
    if |xs| == 0 then Some(Num(IntKind, 0))
    else
      var prefix := Sum(xs[..|xs| - 1]);
      if prefix.None? then None else Add(prefix.value, xs[|xs| - 1])
  }

  predicate HasKind(xs: seq<Num>, k: Kind) {
    exists i :: 0 <= i < |xs| && xs[i].kind == k
  }

  lemma HasKindSnoc(xs: seq<Num>, k: Kind)
    requires |xs| > 0
    ensures HasKind(xs, k) <==> HasKind(xs[..|xs| - 1], k) || xs[|xs| - 1].kind == k
  {
    var prefix := xs[..|xs| - 1];
    if HasKind(prefix, k) {
      var i :| 0 <= i < |prefix| && prefix[i].kind == k;
      assert xs[i].kind == k;
    }
    if HasKind(xs, k) && xs[|xs| - 1].kind != k {
      var i :| 0 <= i < |xs| && xs[i].kind == k;
      assert prefix[i].kind == k;
    }
  }

  /**
   * A running total raises exactly when the sequence holds both a Decimal
   * and a float; otherwise it has the type of whichever it holds.
   */
  lemma {:induction false} SumRaisesIff(xs: seq<Num>)
    ensures Sum(xs).None? <==> HasKind(xs, DecimalKind) && HasKind(xs, FloatKind)
    ensures Sum(xs).Some? ==>
              Sum(xs).value.kind == (if HasKind(xs, DecimalKind) then DecimalKind
                                     else if HasKind(xs, FloatKind) then FloatKind else IntKind)
  {
    if |xs| > 0 {
      SumRaisesIff(xs[..|xs| - 1]);
      HasKindSnoc(xs, DecimalKind);
      HasKindSnoc(xs, FloatKind);
    }
  }
}
