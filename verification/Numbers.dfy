/** Numbers on their way through a stored flow: JSON is read into float64 values. */
module Numbers {
  import opened References
  import opened GoText

  // ---- Whole numbers

  /** The significand of a float64 has 53 bits. */
  const Precision: nat := 0x20_0000_0000_0000

  const HalfPrecision: nat := 0x10_0000_0000_0000

  function Power2(k: nat): (p: nat)
    ensures p >= 1
  {
    if k == 0 then 1 else 2 * Power2(k - 1)
  }

  function Magnitude(n: int): nat { if n < 0 then -n else n }

  ghost predicate Spells(m: nat, j: nat, k: nat) {
    j < Precision && m == j * Power2(k)
  }

  /** A float64 holds the number: it has at most 53 significant bits. */
  ghost predicate ExactDouble(n: int) {
    exists j: nat, k: nat :: Spells(Magnitude(n), j, k)
  }

  /** The distance between neighbouring float64 values around m. */
  function Unit(m: nat): (u: nat)
    ensures u >= 1
  {
    if m < Precision then 1 else 2 * Unit(m / 2)
  }

  /** The multiple of the unit next to m, the even one of two that are as near. */
  function NearestNat(m: nat): nat {
    var u := Unit(m);
    var q, r := m / u, m % u;
    if 2 * r < u || (2 * r == u && q % 2 == 0) then q * u else (q + 1) * u
  }

  /** The float64 a whole number is read as. */
  function Nearest(n: int): int {
    if n < 0 then 0 - NearestNat(-n) else NearestNat(n)
  }

  /** What formatFloat prints for it: converting 2^63, which no int64 holds, gives the least int64. */
  function Reloaded(n: int): int {
    if Nearest(n) == 0x8000_0000_0000_0000 then -0x8000_0000_0000_0000 else Nearest(n)
  }

  lemma {:induction false} UnitIs(m: nat) returns (s: nat)
    ensures Unit(m) == Power2(s) && m < Precision * Unit(m)
    ensures m < Precision ==> Unit(m) == 1
    ensures m >= Precision ==> HalfPrecision * Unit(m) <= m
    decreases m
  {
    if m < Precision {
      s := 0;
    } else {
      s := UnitIs(m / 2);
      s := s + 1;
    }
  }

  /** A large enough number that a float64 holds is a multiple of the power. */
  lemma {:induction false} DividesAt(d: nat, j: nat, k: nat, s: nat) returns (c: nat)
    requires Spells(d, j, k) && d >= HalfPrecision * Power2(s)
    ensures d == c * Power2(s)
    decreases s
  {
    if s == 0 {
      c := d;
    } else {
      assert k > 0;
      var half := j * Power2(k - 1);
      assert d == 2 * half;
      c := DividesAt(half, j, k - 1, s - 1);
      assert d == c * (2 * Power2(s - 1));
    }
  }

  lemma {:induction false} Grows(a: nat, b: nat, u: nat)
    requires a <= b
    ensures b * u == a * u + (b - a) * u && (b > a ==> (b - a) * u >= u)
  {
    var d := b - a;
    assert (a + d) * u == a * u + d * u;
    if d > 0 { AtLeast(d, u); }
  }

  lemma {:induction false} AtLeast(d: nat, u: nat)
    requires d > 0
    ensures d * u >= u
  {
  }

  lemma {:induction false} OneQuotient(m: nat, c: nat, u: nat, q: nat, r: nat)
    requires m == c * u && m == q * u + r && r < u
    ensures c == q && r == 0
  {
    if c >= q { Grows(q, c, u); } else { Grows(c, q, u); }
  }

  lemma {:induction false} Division(m: nat, u: nat) returns (q: nat, r: nat)
    requires u > 0
    ensures q == m / u && r == m % u && m == q * u + r && r < u
  {
    q, r := m / u, m % u;
  }

  lemma {:induction false} NearestNatExactly(m: nat)
    ensures NearestNat(m) == m <==> exists j: nat, k: nat :: Spells(m, j, k)
  {
    var s := UnitIs(m);
    var u := Unit(m);
    var q, r := Division(m, u);
    if j: nat, k: nat :| Spells(m, j, k) {
      var c := m;
      if m >= Precision { c := DividesAt(m, j, k, s); }
      OneQuotient(m, c, u, q, r);
    }
    if NearestNat(m) == m {
      if r != 0 {
        assert q * u != m;
        Grows(q, q + 1, u);
        assert false;
      }
      if q >= Precision { Grows(Precision, q, u); }
      assert Spells(m, q, s);
    }
  }

  /** Reading a whole number as a float64 keeps it exactly when a float64 holds it. */
  lemma {:induction false} NearestExactly(n: int)
    ensures Nearest(n) == n <==> ExactDouble(n)
  {
    NearestNatExactly(Magnitude(n));
  }

  lemma {:induction false} NearestIsExact(n: int)
    ensures ExactDouble(Nearest(n))
  {
    var m := Magnitude(n);
    var s := UnitIs(m);
    var u := Unit(m);
    var q, r := Division(m, u);
    if q >= Precision { Grows(Precision, q, u); }
    assert Magnitude(Nearest(n)) == NearestNat(m);
    if q + 1 < Precision {
      assert Spells(q * u, q, s) && Spells((q + 1) * u, q + 1, s);
    } else {
      assert Spells(q * u, q, s);
      assert (q + 1) * u == HalfPrecision * (2 * u);
      assert Spells((q + 1) * u, HalfPrecision, s + 1);
    }
  }

  lemma {:induction false} NearestNatIsNearest(m: nat, d: nat)
    requires exists j: nat, k: nat :: Spells(d, j, k)
    ensures Magnitude(m - NearestNat(m)) <= Magnitude(m - d)
  {
    var s := UnitIs(m);
    var u := Unit(m);
    var q, r := Division(m, u);
    Grows(q, q + 1, u);
    assert Magnitude(m - NearestNat(m)) <= r && Magnitude(m - NearestNat(m)) <= u - r;
    if m >= Precision {
      if d < HalfPrecision * u {
        if q < HalfPrecision { Grows(q + 1, HalfPrecision, u); } else { Grows(HalfPrecision, q, u); }
      } else {
        var j: nat, k: nat :| Spells(d, j, k);
        var c := DividesAt(d, j, k, s);
        if c <= q {
          Grows(c, q, u);
        } else {
          Grows(q + 1, c, u);
        }
      }
    }
  }

  /** No float64 is nearer to a whole number than the one it is read as. */
  lemma {:induction false} NearestIsNearest(n: int, d: int)
    requires ExactDouble(d)
    ensures Magnitude(n - Nearest(n)) <= Magnitude(n - d)
  {
    var m := Magnitude(n);
    assert Magnitude(n - Nearest(n)) == Magnitude(m - NearestNat(m));
    if (n < 0) == (d < 0) {
      NearestNatIsNearest(m, Magnitude(d));
    } else {
      assert Spells(0, 0, 0);
      NearestNatIsNearest(m, 0);
    }
  }

  /** A stored 64-bit number is printed as itself exactly when a float64 holds it. */
  lemma {:induction false} ReloadedExactly(n: int)
    requires FitsInt(n)
    ensures FitsInt(Reloaded(n)) && (Reloaded(n) == n <==> ExactDouble(n))
  {
    var top := 0x8000_0000_0000_0000;
    assert Power2(2) == 4;
    assert Power2(4) == 16;
    assert Power2(6) == 64;
    assert Power2(8) == 256;
    assert Power2(11) == 8 * Power2(8);
    assert Spells(Magnitude(top), HalfPrecision, 11) && Spells(Magnitude(-top), HalfPrecision, 11);
    NearestIsNearest(n, top);
    NearestIsNearest(n, -top);
    NearestExactly(n);
  }

  /** The first whole number that no float64 holds. */
  lemma {:induction false} FirstLostNumber()
    ensures Reloaded(Precision + 1) == Precision && !ExactDouble(Precision + 1)
  {
    assert Unit(Precision + 1) == 2 * Unit(HalfPrecision) == 2;
    assert NearestNat(Precision + 1) == HalfPrecision * 2;
    NearestExactly(Precision + 1);
  }

  // ---- Other numbers

  /**
   * What is done with the numbers that are no 64-bit integer. A float64 goes by its JSON text, or by a name of its
   * own where JSON has none. `stores` is ParseFloat and then json.Marshal, `shows` is formatFloat, and `marshals` is
   * false for the infinities and for NaN.
   */
  datatype FloatFormat = FloatFormat(
    stores: string -> Option<string>, names: string -> bool, shows: string -> string, marshals: string -> bool)

  ghost predicate StoresNames(f: FloatFormat) {
    forall text :: f.stores(text).Some? ==> f.names(f.stores(text).value)
  }

  /** What formatFloat prints is one word, and reads as the same float64 unless it is a 64-bit integer. */
  ghost predicate ReadsWhatItShows(f: FloatFormat) {
    forall x :: f.names(x) ==> IsToken(f.shows(x)) && (Atoi(f.shows(x)).None? ==> f.stores(f.shows(x)) == Some(x))
  }

  /** Every format with these laws; the text 1.5 as the only float shows that they can be met. */
  type Floats = f: FloatFormat | StoresNames(f) && ReadsWhatItShows(f)
    witness FloatFormat(t => if t == "1.5" then Some(t) else None, t => t == "1.5", t => t, t => true)

  const Doubles: Floats

  /** A JSON number that is a 64-bit integer is told apart from no other number with the same text. */
  predicate IsWhole(json: string) {
    Atoi(json).Some? && Itoa(Atoi(json).value) == json
  }
}
