/** The quantity selector on each product card: a minus button, a plus button
    and a number input, whose handlers keep the quantity between 1 and 10. */
module Stepper {

  /** What `parseInt` makes of the input's text: a whole number or NaN. */
  datatype Reading = Num(n: int) | NaN

  const MinQuantity := 1
  const MaxQuantity := 10

  predicate InRange(r: Reading) {
    r.Num? && MinQuantity <= r.n <= MaxQuantity
  }

  /** The minus button: decrement only a value above 1. An unreadable value
      stays as it is. */
  function Decrement(r: Reading): (d: Reading)
    ensures InRange(r) ==> InRange(d)
    ensures d != r <==> r.Num? && r.n > MinQuantity
    ensures d != r ==> d == Num(r.n - 1)
  {
    if r.Num? && r.n > MinQuantity then Num(r.n - 1) else r
  }

  /** The plus button: increment only a value below 10. A value below 1, which
      only typing without a change event can leave, is incremented too. */
  function Increment(r: Reading): (d: Reading)
    ensures InRange(r) ==> InRange(d)
    ensures d != r <==> r.Num? && r.n < MaxQuantity
    ensures d != r ==> d == Num(r.n + 1)
  {
    if r.Num? && r.n < MaxQuantity then Num(r.n + 1) else r
  }

  /** The change handler: NaN or below 1 becomes 1, above 10 becomes 10, and
      a value in range is kept. */
  function Clamp(r: Reading): (v: int)
    ensures MinQuantity <= v <= MaxQuantity
    ensures InRange(r) ==> v == r.n
    ensures !InRange(r) ==> (v == MinQuantity <==> r.NaN? || r.n < MinQuantity)
    ensures !InRange(r) ==> (v == MaxQuantity <==> r.Num? && r.n > MaxQuantity)
  {
    var value := if r.NaN? || r.n < MinQuantity then MinQuantity else r.n;
    if value > MaxQuantity then MaxQuantity else value
  }

  /** Clamping is monotone and a value that was clamped once stays put. */
  lemma ClampProperties(a: int, b: int)
    requires a <= b
    ensures Clamp(Num(a)) <= Clamp(Num(b))
    ensures Clamp(Num(Clamp(Num(a)))) == Clamp(Num(a))
    ensures Clamp(NaN) == Clamp(Num(a)) <==> a <= MinQuantity
  {
  }

  /** Plus undoes minus, and minus undoes plus, inside the range. */
  lemma StepsUndo(n: int)
    ensures MinQuantity < n <= MaxQuantity ==> Increment(Decrement(Num(n))) == Num(n)
    ensures MinQuantity <= n < MaxQuantity ==> Decrement(Increment(Num(n))) == Num(n)
  {
  }

  /** A user action on a quantity selector; `Change` is a typed value followed
      by the input's change event. */
  datatype Event = Minus | Plus | Change(typed: Reading)

  function Step(r: Reading, e: Event): Reading {
    match e
    case Minus => Decrement(r)
    case Plus => Increment(r)
    case Change(t) => Num(Clamp(t))
  }

  function Steps(r: Reading, events: seq<Event>): Reading
    decreases events
  {
    if events == [] then r else Steps(Step(r, events[0]), events[1..])
  }

  /** From a value in range, no sequence of button presses and changes leaves
      the range; after a change event the value is in range whatever it was. */
  lemma {:induction false} StaysInRange(r: Reading, events: seq<Event>)
    requires InRange(r) || (events != [] && events[0].Change?)
    ensures InRange(Steps(r, events))
    decreases events
  {
    if events != [] {
      var next := Step(r, events[0]);
      assert InRange(next);
      StaysInRange(next, events[1..]);
    }
  }

  /** One quantity selector's input element. */
  class QuantitySelector {
    var value: Reading

    constructor (initial: Reading)
      ensures value == initial
    {
      value := initial;
    }

    method OnMinus()
      modifies this
      ensures value == Decrement(old(value))
    {
      var currentValue := value;
      if currentValue.Num? && currentValue.n > MinQuantity {
        value := Num(currentValue.n - 1);
      }
    }

    method OnPlus()
      modifies this
      ensures value == Increment(old(value))
    {
      var currentValue := value;
      if currentValue.Num? && currentValue.n < MaxQuantity {
        value := Num(currentValue.n + 1);
      }
    }

    method OnChange(typed: Reading)
      modifies this
      ensures value == Num(Clamp(typed))
      ensures InRange(value)
    {
      var v := if typed.NaN? || typed.n < MinQuantity then MinQuantity else typed.n;
      if v > MaxQuantity {
        v := MaxQuantity;
      }
      value := Num(v);
    }
  }
}
