/**
 The order in which JavaScript enumerates an object's own keys: array indices
 first, in ascending order, then all other keys as they were added.
 */
module PropertyOrder {
  import opened Prelude
  import opened Json

  predicate Digit(u: Unit) {
    0x30 <= u <= 0x39
  }

  /** The number a text of digits denotes. */
  function Numeral(k: Text): nat {
    if k == [] then 0 else Numeral(Front(k)) * 10 + (if Digit(Last(k)) then Last(k) - 0x30 else 0)
  }

  /** An array index: a canonical numeral below 2^32 - 1. */
  predicate IsIndex(k: Text) {
    k != [] && (forall i :: 0 <= i < |k| ==> Digit(k[i])) && (|k| == 1 || k[0] != 0x30) && Numeral(k) < 0xFFFF_FFFF
  }

  /** Key `a` is enumerated before `b` even when it was added later. */
  predicate Earlier(a: Text, b: Text) {
    IsIndex(a) && (!IsIndex(b) || Numeral(a) < Numeral(b))
  }

  lemma EarlierThrough(k: Text, a: Text, b: Text)
    requires Earlier(k, a) && !Earlier(b, a)
    ensures Earlier(k, b) && !Earlier(b, k)
  {
    hide IsIndex, Numeral;
  }

  lemma EarlierOneWay(a: Text, b: Text)
    requires Earlier(a, b)
    ensures !Earlier(b, a)
  {
    hide IsIndex, Numeral;
  }

  /** `x`, added to things already enumerated in the order of `xs`. */
  function Place<T>(key: T -> Text, xs: seq<T>, x: T): seq<T> {
    if xs == [] then [x]
    else if Earlier(key(x), key(xs[0])) then [x] + xs
    else [xs[0]] + Place(key, xs[1..], x)
  }

  /** Things added one after another, as they are then enumerated. */
  function Arranged<T>(key: T -> Text, xs: seq<T>): seq<T> {
    if xs == [] then [] else Place(key, Arranged(key, Front(xs)), Last(xs))
  }

  predicate InOrder<T>(key: T -> Text, xs: seq<T>) {
    forall i, j :: 0 <= i < j < |xs| ==> !Earlier(key(xs[j]), key(xs[i]))
  }

  lemma PlaceUnfolds<T>(key: T -> Text, y: T, ys: seq<T>, x: T)
    ensures Place(key, [y] + ys, x) == if Earlier(key(x), key(y)) then [x] + ([y] + ys) else [y] + Place(key, ys, x)
  {
    hide Earlier;
    assert ([y] + ys)[1..] == ys;
  }

  lemma {:induction false} PlaceMembers<T>(key: T -> Text, xs: seq<T>, x: T)
    ensures |Place(key, xs, x)| == |xs| + 1
    ensures forall y :: y in Place(key, xs, x) <==> y == x || y in xs
  {
    hide Earlier;
    if xs != [] {
      PlaceMembers(key, xs[1..], x);
      assert xs == [xs[0]] + xs[1..];
    }
  }

  lemma PlacedIsOneOf<T>(key: T -> Text, xs: seq<T>, x: T, y: T)
    requires y in Place(key, xs, x)
    ensures y == x || y in xs
  {
    PlaceMembers(key, xs, x);
  }

  lemma {:induction false} PlaceKeepsOrder<T>(key: T -> Text, xs: seq<T>, x: T)
    requires InOrder(key, xs)
    ensures InOrder(key, Place(key, xs, x))
  {
    hide Earlier;
    if xs != [] {
      if Earlier(key(x), key(xs[0])) {
        forall j | 0 <= j < |xs| ensures !Earlier(key(xs[j]), key(x)) {
          if j == 0 {
            EarlierOneWay(key(x), key(xs[0]));
          } else {
            EarlierThrough(key(x), key(xs[0]), key(xs[j]));
          }
        }
      } else {
        var rest := Place(key, xs[1..], x);
        PlaceKeepsOrder(key, xs[1..], x);
        PlaceMembers(key, xs[1..], x);
        forall y | y in rest ensures !Earlier(key(y), key(xs[0])) {
          if y != x {
            PlacedIsOneOf(key, xs[1..], x, y);
            var i :| 0 <= i < |xs[1..]| && xs[1..][i] == y;
            assert xs[i + 1] == y;
          }
        }
        forall j | 0 <= j < |rest| ensures !Earlier(key(rest[j]), key(xs[0])) {
          assert rest[j] in rest;
        }
      }
    }
  }

  lemma {:induction false} PlaceAtTheEnd<T>(key: T -> Text, xs: seq<T>, x: T)
    requires forall i :: 0 <= i < |xs| ==> !Earlier(key(x), key(xs[i]))
    ensures Place(key, xs, x) == xs + [x]
  {
    hide Earlier;
    if xs != [] {
      PlaceAtTheEnd(key, xs[1..], x);
      assert xs + [x] == [xs[0]] + (xs[1..] + [x]);
    }
  }

  lemma ArrangedAppend<T>(key: T -> Text, xs: seq<T>, x: T)
    ensures Arranged(key, xs + [x]) == Place(key, Arranged(key, xs), x)
  {
    FrontOfAppend(xs, x);
    hide Place;
  }

  lemma {:induction false} ArrangedMembers<T>(key: T -> Text, xs: seq<T>)
    ensures |Arranged(key, xs)| == |xs|
    ensures forall y :: y in Arranged(key, xs) <==> y in xs
  {
    if xs != [] {
      ArrangedMembers(key, Front(xs));
      PlaceMembers(key, Arranged(key, Front(xs)), Last(xs));
      assert xs == Front(xs) + [Last(xs)];
    }
  }

  lemma {:induction false} ArrangedIsInOrder<T>(key: T -> Text, xs: seq<T>)
    ensures InOrder(key, Arranged(key, xs))
  {
    if xs != [] {
      ArrangedIsInOrder(key, Front(xs));
      PlaceKeepsOrder(key, Arranged(key, Front(xs)), Last(xs));
    }
  }

  /** Enumeration keeps the order of addition exactly when no index was added
      after a key it is enumerated before. */
  lemma {:induction false} ArrangedExactly<T>(key: T -> Text, xs: seq<T>)
    ensures Arranged(key, xs) == xs <==> InOrder(key, xs)
  {
    ArrangedIsInOrder(key, xs);
    if InOrder(key, xs) && xs != [] {
      ArrangedExactly(key, Front(xs));
      PlaceAtTheEnd(key, Front(xs), Last(xs));
    }
  }

  // ---- in plain terms ---------------------------------------------------------------------

  /** A number in decimal, without leading zeros. */
  function {:tailrecursion false} Decimal(n: nat): Text {
    (if n < 10 then [] else Decimal(n / 10)) + [0x30 + n % 10]
  }

  lemma SmallNumbersAreSpelled()
    ensures Decimal(0) == Ascii("0") && Decimal(7) == Ascii("7") && Decimal(42) == Ascii("42")
  {
  }

  lemma {:induction false} DecimalIsCanonical(n: nat)
    ensures var k := Decimal(n);
            && k != [] && (forall i :: 0 <= i < |k| ==> Digit(k[i])) && (|k| == 1 || k[0] != 0x30)
            && Numeral(k) == n && (n >= 10 ==> Numeral(k[..1]) > 0)
  {
    if n >= 10 {
      DecimalIsCanonical(n / 10);
      FrontOfAppend(Decimal(n / 10), 0x30 + n % 10);
      assert Decimal(n)[0] == Decimal(n / 10)[0];
    }
  }

  lemma {:induction false} NumeralIsWritten(k: Text)
    requires k != [] && (forall i :: 0 <= i < |k| ==> Digit(k[i])) && (|k| == 1 || k[0] != 0x30)
    ensures Decimal(Numeral(k)) == k && (k[0] != 0x30 ==> Numeral(k) > 0)
  {
    var rest, d := Front(k), Last(k) - 0x30;
    assert k == rest + [Last(k)];
    if rest != [] {
      assert rest[0] == k[0];
      NumeralIsWritten(rest);
      TenTimes(Numeral(rest), d);
      hide Numeral, Decimal;
      DecimalOfTen(Numeral(rest), d);
      LastDigit(k);
    }
  }

  lemma TenTimes(m: nat, d: nat)
    requires d < 10
    ensures (m * 10 + d) / 10 == m && (m * 10 + d) % 10 == d
  {
  }

  lemma DecimalOfTen(m: nat, d: nat)
    requires d < 10 && m > 0
    ensures Decimal(m * 10 + d) == Decimal(m) + [0x30 + d]
  {
    TenTimes(m, d);
  }

  lemma LastDigit(k: Text)
    requires k != [] && Digit(Last(k))
    ensures Numeral(k) == Numeral(Front(k)) * 10 + (Last(k) - 0x30)
  {
  }

  /** The keys enumerated first are the numbers below 2^32 - 1 as JavaScript prints them. */
  lemma IndicesAreNumbers(k: Text)
    ensures IsIndex(k) <==> exists n: nat :: n < 0xFFFF_FFFF && Decimal(n) == k
    ensures IsIndex(k) ==> Decimal(Numeral(k)) == k
  {
    if IsIndex(k) { NumeralIsWritten(k); }
    forall n: nat | n < 0xFFFF_FFFF && Decimal(n) == k ensures IsIndex(k) { DecimalIsCanonical(n); }
  }

  /** What is not an array index, in the order it was added. */
  function NotIndices<T>(key: T -> Text, xs: seq<T>): seq<T> {
    if xs == [] then [] else NotIndices(key, Front(xs)) + (if IsIndex(key(Last(xs))) then [] else [Last(xs)])
  }

  predicate AllIndices<T>(key: T -> Text, xs: seq<T>) {
    forall i :: 0 <= i < |xs| ==> IsIndex(key(xs[i]))
  }

  predicate NoIndices<T>(key: T -> Text, xs: seq<T>) {
    forall i :: 0 <= i < |xs| ==> !IsIndex(key(xs[i]))
  }

  lemma {:induction false} PlaceAmongIndices<T>(key: T -> Text, indices: seq<T>, rest: seq<T>, x: T)
    requires IsIndex(key(x)) && AllIndices(key, indices) && NoIndices(key, rest)
    ensures Place(key, indices + rest, x) == Place(key, indices, x) + rest && AllIndices(key, Place(key, indices, x))
  {
    if indices == [] {
      assert indices + rest == rest;
    } else {
      PlaceAmongIndices(key, indices[1..], rest, x);
      assert indices + rest == [indices[0]] + (indices[1..] + rest);
      PlaceUnfolds(key, indices[0], indices[1..] + rest, x);
    }
  }

  /** Array indices come first, in ascending order, and every other key after them,
      as it was added. */
  lemma {:induction false} IndicesComeFirst<T>(key: T -> Text, xs: seq<T>) returns (indices: seq<T>)
    ensures Arranged(key, xs) == indices + NotIndices(key, xs)
    ensures AllIndices(key, indices) && NoIndices(key, NotIndices(key, xs))
    ensures forall i, j :: 0 <= i < j < |indices| ==> Numeral(key(indices[i])) <= Numeral(key(indices[j]))
  {
    indices := [];
    if xs != [] {
      var before := IndicesComeFirst(key, Front(xs));
      var x, rest := Last(xs), NotIndices(key, Front(xs));
      if IsIndex(key(x)) {
        indices := Place(key, before, x);
        PlaceAmongIndices(key, before, rest, x);
      } else {
        indices := before;
        PlaceAtTheEnd(key, before + rest, x);
        assert before + rest + [x] == before + (rest + [x]);
      }
      ArrangedIsInOrder(key, xs);
      hide IsIndex, Numeral, Arranged, Place;
      assert forall i :: 0 <= i < |indices| ==> (indices + NotIndices(key, xs))[i] == indices[i];
    }
  }
}
