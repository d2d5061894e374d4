/** Scalar type descriptions, their packed ids and the registry that turns an id back into a type. */
module ScalarTypes {

  datatype NanRepr = NoNans | Ieee754 | ExtdRangeMaxMin {
    function Value(): (v: nat)
      ensures v < 3
    {
      match this
      case NoNans => 0
      case Ieee754 => 1
      case ExtdRangeMaxMin => 2
    }
  }

  datatype ScalarType = ScalarType(exponent: int, mantissa: int, signed: bool, bias: int,
                                   finiteValuesOnly: bool, nanRepr: NanRepr)

  // ---- bitwise operations on Python integers -----------------------------------------------------------

  function Pow2(n: nat): (p: nat)
    ensures p > 0
  {
    if n == 0 then 1 else 2 * Pow2(n - 1)
  }

  /** a | b for non-negative integers, bit by bit. */
  function Or(a: nat, b: nat): nat
    decreases a + b
  {
    if a == 0 && b == 0 then 0
    else 2 * Or(a / 2, b / 2) + if a % 2 == 1 || b % 2 == 1 then 1 else 0
  }

  /** x & m for a non-negative m; x is in two's complement, so it may be negative. */
  function And(x: int, m: nat): nat
    decreases m
  {
    if m == 0 then 0 else 2 * And(x / 2, m / 2) + if x % 2 == 1 && m % 2 == 1 then 1 else 0
  }

  function Shl(x: nat, k: nat): nat {
    x * Pow2(k)
  }

  lemma DivMod(x: int, d: nat, q: int, r: int)
    requires d > 0 && x == q * d + r && 0 <= r < d
    ensures x / d == q && x % d == r
  {
    var q', r' := x / d, x % d;
    assert x == q' * d + r';
    assert (q - q') * d == r' - r;
    if q > q' {
      assert (q - q') * d >= d by { Grows(q - q', d); }
    } else if q < q' {
      assert (q' - q) * d >= d by { Grows(q' - q, d); }
    }
  }

  lemma Grows(k: int, d: nat)
    requires k >= 1
    ensures k * d >= d
  {
    assert k * d == (k - 1) * d + d;
  }

  lemma Times2(q: int, h: nat)
    ensures q * (2 * h) == 2 * (q * h)
  {
  }

  lemma HalfMod(x: int, h: nat)
    requires h > 0
    ensures x % (2 * h) == 2 * ((x / 2) % h) + x % 2
  {
    var q, r := (x / 2) / h, (x / 2) % h;
    assert x / 2 == q * h + r;
    Times2(q, h);
    DivMod(x, 2 * h, q, 2 * r + x % 2);
  }

  lemma AndOdd(x: int, m: nat)
    ensures And(x, 2 * m + 1) == 2 * And(x / 2, m) + x % 2
  {
    assert (2 * m + 1) / 2 == m && (2 * m + 1) % 2 == 1;
  }

  lemma MaskStep(x: int, h: nat)
    requires h > 0 && And(x / 2, h - 1) == (x / 2) % h
    ensures And(x, 2 * h - 1) == x % (2 * h)
  {
    hide And;
    HalfMod(x, h);
    AndOdd(x, h - 1);
    assert 2 * h - 1 == 2 * (h - 1) + 1;
  }

  /** Masking with width ones is reduction modulo 2^width, for negative numbers too. */
  lemma {:induction false} MaskIsMod(x: int, width: nat)
    ensures And(x, Pow2(width) - 1) == x % Pow2(width)
    decreases width
  {
    hide And;
    if width > 0 {
      MaskIsMod(x / 2, width - 1);
      MaskStep(x, Pow2(width - 1));
    } else {
      AndZero(x);
    }
  }

  lemma AndZero(x: int)
    ensures And(x, 0) == 0
  {
  }

  /** Bits that do not meet are added by or. */
  lemma {:induction false} OrIsSum(a: nat, b: nat, k: nat)
    requires a < Pow2(k)
    ensures Or(a, Shl(b, k)) == a + Shl(b, k)
    decreases k
  {
    if k == 0 {
      OrZero(b);
    } else {
      var t := Shl(b, k - 1);
      assert Shl(b, k) == 2 * t by { assert b * (2 * Pow2(k - 1)) == 2 * (b * Pow2(k - 1)); }
      OrIsSum(a / 2, b, k - 1);
    }
  }

  lemma {:induction false} OrZero(b: nat)
    ensures Or(0, b) == b
  {
    if b > 0 {
      OrZero(b / 2);
    }
  }

  // ---- the id ------------------------------------------------------------------------------------------

  function Bit(b: bool): nat {
    if b then 1 else 0
  }

  /** One field packed behind those already in val. */
  function Packed(val: nat, offset: nat, member: int, width: nat): nat {
    Or(val, Shl(And(member, Pow2(width) - 1), offset))
  }

  /** The fields in packing order, with their widths. */
  function Fields(t: ScalarType): seq<(int, nat)> {
    [(t.exponent, 8), (t.mantissa, 8), (Bit(t.signed), 1), (t.bias, 32), (Bit(t.finiteValuesOnly), 1),
     (t.nanRepr.Value(), 8)]
  }

  function Width(fs: seq<(int, nat)>): nat {
    if fs == [] then 0 else Width(fs[..|fs| - 1]) + fs[|fs| - 1].1
  }

  function Pack(fs: seq<(int, nat)>): nat {
    if fs == [] then 0
    else
      var front := fs[..|fs| - 1];
      Packed(Pack(front), Width(front), fs[|fs| - 1].0, fs[|fs| - 1].1)
  }

  function Id(t: ScalarType): nat {
    Pack(Fields(t))
  }

  lemma NothingPacked()
    ensures Pack([]) == 0 && Width([]) == 0
  {
  }

  lemma PackNext(fs: seq<(int, nat)>, member: int, width: nat)
    ensures Pack(fs + [(member, width)]) == Packed(Pack(fs), Width(fs), member, width)
    ensures Width(fs + [(member, width)]) == Width(fs) + width
  {
    assert (fs + [(member, width)])[..|fs|] == fs;
  }

  lemma {:induction false} Pow2Adds(a: nat, b: nat)
    ensures Pow2(a + b) == Pow2(a) * Pow2(b)
  {
    if b > 0 {
      Pow2Adds(a, b - 1);
      assert a + b - 1 == a + (b - 1);
      Times2(Pow2(a), Pow2(b - 1));
    }
  }

  /** Packing adds each field, reduced to its width, at its own offset; the result fits the total width. */
  lemma {:induction false} PackIsSum(fs: seq<(int, nat)>)
    ensures Pack(fs) < Pow2(Width(fs))
    ensures fs != [] ==>
              var front := fs[..|fs| - 1]; var last := fs[|fs| - 1];
              Pack(fs) == Pack(front) + (last.0 % Pow2(last.1)) * Pow2(Width(front))
  {
    if fs != [] {
      var front, last := fs[..|fs| - 1], fs[|fs| - 1];
      PackIsSum(front);
      MaskIsMod(last.0, last.1);
      var x, w := last.0 % Pow2(last.1), Width(front);
      OrIsSum(Pack(front), x, w);
      Pow2Adds(w, last.1);
      TopField(Pack(front), x, Pow2(w), Pow2(last.1));
    }
  }

  lemma TopField(low: nat, x: nat, p: nat, q: nat)
    requires low < p && x < q
    ensures low + x * p < p * q
  {
    assert x * p + p == (x + 1) * p;
    Bounded(x + 1, q, p);
  }

  lemma Bounded(a: nat, b: nat, p: nat)
    requires a <= b
    ensures a * p <= b * p
  {
    assert b * p == a * p + (b - a) * p;
  }

  lemma FieldBelow(low: nat, x: nat, lo: nat, mid: nat, rest: nat)
    ensures ((low + x * Pow2(lo + mid + rest)) / Pow2(lo)) % Pow2(mid) == (low / Pow2(lo)) % Pow2(mid)
  {
    Pow2Adds(lo + mid, rest);
    Pow2Adds(lo, mid);
    hide Pow2;
    var p, q, s := Pow2(lo), Pow2(mid), Pow2(rest);
    Exchange(x, p * q, s);
    HigherBits(low, x * s, p, q);
  }

  lemma Exchange(x: nat, a: nat, s: nat)
    ensures x * (a * s) == (x * s) * a
  {
  }

  /** The k-th field is read back by shifting and masking. */
  lemma {:induction false} FieldReadBack(fs: seq<(int, nat)>, k: nat)
    requires k < |fs|
    ensures (Pack(fs) / Pow2(Width(fs[..k]))) % Pow2(fs[k].1) == fs[k].0 % Pow2(fs[k].1)
    decreases |fs|
  {
    var front, last := fs[..|fs| - 1], fs[|fs| - 1];
    var w := Width(front);
    PackIsSum(fs);
    PackIsSum(front);
    hide Pow2, Pack;
    var x := last.0 % Pow2(last.1);
    if k == |fs| - 1 {
      DivMod(Pack(fs), Pow2(w), x, Pack(front));
      ModModIsMod(last.0, Pow2(last.1));
    } else {
      FieldReadBack(front, k);
      assert front[..k] == fs[..k] && front[k] == fs[k];
      WidthSplit(front, k);
      var lo, mid := Width(fs[..k]), fs[k].1;
      FieldBelow(Pack(front), x, lo, mid, w - lo - mid);
    }
  }

  lemma ModModIsMod(x: int, d: nat)
    requires d > 0
    ensures (x % d) % d == x % d
  {
    DivMod(x % d, d, 0, x % d);
  }

  lemma {:induction false} WidthSplit(fs: seq<(int, nat)>, k: nat)
    requires k < |fs|
    ensures Width(fs[..k]) + fs[k].1 <= Width(fs)
  {
    if k < |fs| - 1 {
      var front := fs[..|fs| - 1];
      assert front[..k] == fs[..k];
      WidthSplit(front, k);
    }
  }

  lemma HigherBits(low: nat, x: nat, p: nat, q: nat)
    requires p > 0 && q > 0
    ensures ((low + x * (p * q)) / p) % q == (low / p) % q
  {
    var d, r := low / p, low % p;
    assert low == d * p + r;
    assert x * (p * q) == (x * q) * p;
    assert (d + x * q) * p == d * p + (x * q) * p;
    DivMod(low + x * (p * q), p, d + x * q, r);
    var e, s := d / q, d % q;
    assert d == e * q + s;
    assert (e + x) * q == e * q + x * q;
    DivMod(d + x * q, q, e + x, s);
  }

  predicate SameMod(x: int, y: int, width: nat) {
    x % Pow2(width) == y % Pow2(width)
  }

  /** Fields that agree once reduced to their widths. */
  ghost predicate Congruent(t: ScalarType, u: ScalarType) {
    && SameMod(t.exponent, u.exponent, 8) && SameMod(t.mantissa, u.mantissa, 8) && t.signed == u.signed
    && SameMod(t.bias, u.bias, 32) && t.finiteValuesOnly == u.finiteValuesOnly && t.nanRepr == u.nanRepr
  }

  lemma Powers()
    ensures Pow2(1) == 2 && Pow2(8) == 256 && Pow2(32) == 0x1_0000_0000
  {
    assert Pow2(2) == 4 && Pow2(4) == 16;
    Pow2Adds(4, 4);
    Pow2Adds(8, 8);
    Pow2Adds(16, 16);
  }

  ghost predicate SameFields(fs: seq<(int, nat)>, gs: seq<(int, nat)>) {
    |fs| == |gs| && forall k :: 0 <= k < |fs| ==>
      fs[k].1 == gs[k].1 && SameMod(fs[k].0, gs[k].0, fs[k].1)
  }

  lemma {:induction false} SamePack(fs: seq<(int, nat)>, gs: seq<(int, nat)>)
    requires SameFields(fs, gs)
    ensures Pack(fs) == Pack(gs) && Width(fs) == Width(gs)
  {
    if fs != [] {
      SamePack(fs[..|fs| - 1], gs[..|gs| - 1]);
      PackIsSum(fs);
      PackIsSum(gs);
    }
  }

  lemma FlagsApart(a: bool, b: bool)
    ensures SameMod(Bit(a), Bit(b), 1) <==> a == b
  {
    Powers();
  }

  lemma NanReprsApart(a: NanRepr, b: NanRepr)
    ensures SameMod(a.Value(), b.Value(), 8) <==> a == b
  {
    Powers();
  }

  lemma CongruentFields(t: ScalarType, u: ScalarType)
    ensures Congruent(t, u) <==> SameFields(Fields(t), Fields(u))
  {
    FlagsApart(t.signed, u.signed);
    FlagsApart(t.finiteValuesOnly, u.finiteValuesOnly);
    NanReprsApart(t.nanRepr, u.nanRepr);
    hide SameMod, Bit;
    var fs, gs := Fields(t), Fields(u);
    if SameFields(fs, gs) {
      assert SameMod(fs[0].0, gs[0].0, fs[0].1) && SameMod(fs[1].0, gs[1].0, fs[1].1);
      assert SameMod(fs[2].0, gs[2].0, fs[2].1) && SameMod(fs[3].0, gs[3].0, fs[3].1);
      assert SameMod(fs[4].0, gs[4].0, fs[4].1) && SameMod(fs[5].0, gs[5].0, fs[5].1);
    }
  }

  lemma {:induction false} WidthsAlike(fs: seq<(int, nat)>, gs: seq<(int, nat)>)
    requires |fs| == |gs| && forall k :: 0 <= k < |fs| ==> fs[k].1 == gs[k].1
    ensures Width(fs) == Width(gs)
  {
    if fs != [] {
      WidthsAlike(fs[..|fs| - 1], gs[..|gs| - 1]);
    }
  }

  lemma WidthsMatch(t: ScalarType, u: ScalarType)
    ensures |Fields(t)| == |Fields(u)| && forall k :: 0 <= k < |Fields(t)| ==> Fields(t)[k].1 == Fields(u)[k].1
  {
  }

  /** Two types have one id exactly when their fields agree modulo the packed widths. */
  lemma SameIdIff(t: ScalarType, u: ScalarType)
    ensures Id(t) == Id(u) <==> Congruent(t, u)
  {
    var fs, gs := Fields(t), Fields(u);
    CongruentFields(t, u);
    WidthsMatch(t, u);
    hide Pack, Width, Congruent, Pow2, Fields;
    if SameFields(fs, gs) {
      SamePack(fs, gs);
    }
    if Id(t) == Id(u) {
      forall k | 0 <= k < |fs| ensures SameMod(fs[k].0, gs[k].0, fs[k].1) {
        FieldReadBack(fs, k);
        FieldReadBack(gs, k);
        WidthsAlike(fs[..k], gs[..k]);
      }
    }
  }

  lemma IdFits(t: ScalarType)
    ensures Id(t) < Pow2(58)
  {
    PackIsSum(Fields(t));
    var fs := Fields(t);
    assert Width(fs) == 58 by {
      assert Width(fs[..5]) == 50 by {
        assert fs[..5][..4] == fs[..4] && fs[..4][..3] == fs[..3] && fs[..3][..2] == fs[..2] && fs[..2][..1] == fs[..1];
        assert Width(fs[..1]) == 8;
        assert Width(fs[..2]) == 16;
        assert Width(fs[..3]) == 17;
        assert Width(fs[..4]) == 49;
      }
    }
  }

  lemma Offsets()
    ensures Pow2(16) == 0x1_0000 && Pow2(17) == 0x2_0000
    ensures Pow2(49) == 0x2_0000_0000_0000 && Pow2(50) == 0x4_0000_0000_0000
  {
    Powers();
    Pow2Adds(8, 8);
    Pow2Adds(16, 1);
    Pow2Adds(17, 32);
    Pow2Adds(49, 1);
  }

  lemma PackedOn(front: seq<(int, nat)>, member: int, width: nat)
    ensures Pack(front + [(member, width)]) == Pack(front) + (member % Pow2(width)) * Pow2(Width(front))
    ensures Width(front + [(member, width)]) == Width(front) + width
  {
    var fs := front + [(member, width)];
    assert fs[..|fs| - 1] == front;
    PackIsSum(fs);
  }

  /** Where each field lies in the id: exponent in bits 0 to 7, mantissa from bit 8, sign flag at 16, bias from 17,
      finite-only flag at 49, and the treatment of NaNs, none, IEEE 754 or extended, as 0, 1 or 2 from bit 50. */
  lemma IdLayout(t: ScalarType)
    ensures Id(t) == t.exponent % 256 + (t.mantissa % 256) * 0x100 + (if t.signed then 0x1_0000 else 0)
                     + (t.bias % 0x1_0000_0000) * 0x2_0000 + (if t.finiteValuesOnly then 0x2_0000_0000_0000 else 0)
                     + match t.nanRepr
                       case NoNans => 0
                       case Ieee754 => 0x4_0000_0000_0000
                       case ExtdRangeMaxMin => 0x8_0000_0000_0000
  {
    Powers();
    Offsets();
    NothingPacked();
    hide Pow2, Pack, Width;
    PackedOn([], t.exponent, 8);
    var a := [] + [(t.exponent, 8)];
    PackedOn(a, t.mantissa, 8);
    var b := a + [(t.mantissa, 8)];
    PackedOn(b, Bit(t.signed), 1);
    var c := b + [(Bit(t.signed), 1)];
    PackedOn(c, t.bias, 32);
    var d := c + [(t.bias, 32)];
    PackedOn(d, Bit(t.finiteValuesOnly), 1);
    var e := d + [(Bit(t.finiteValuesOnly), 1)];
    PackedOn(e, t.nanRepr.Value(), 8);
    assert e + [(t.nanRepr.Value(), 8)] == Fields(t);
    assert Pow2(0) == 1 by { FirstPower(); }
  }

  lemma FirstPower()
    ensures Pow2(0) == 1
  {
  }

  /** Fields that fit their widths, the bias as a signed number. */
  predicate InRange(t: ScalarType) {
    0 <= t.exponent < 256 && 0 <= t.mantissa < 256 && -0x8000_0000 <= t.bias < 0x8000_0000
  }

  /** On types whose fields fit, ids are unique. */
  lemma IdInjective(t: ScalarType, u: ScalarType)
    requires InRange(t) && InRange(u) && Id(t) == Id(u)
    ensures t == u
  {
    SameIdIff(t, u);
    Powers();
    hide Id, Pow2;
    assert SameMod(t.bias, u.bias, 32) && SameMod(t.exponent, u.exponent, 8) && SameMod(t.mantissa, u.mantissa, 8);
  }

  // ---- the registry ------------------------------------------------------------------------------------

  /** The map of all ids handed out: each use of a type's id stores the type under it. */
  type Registry = map<int, ScalarType>

  function Registered(r: Registry, ts: seq<ScalarType>): Registry {
    if ts == [] then r else Registered(r, ts[..|ts| - 1])[Id(ts[|ts| - 1]) := ts[|ts| - 1]]
  }

  datatype Lookup = Unknown | Found(t: ScalarType)

  function FromId(r: Registry, id: int): Lookup {
    if id in r then Found(r[id]) else Unknown
  }

  /** from_id answers with the type registered last among those whose fields agree modulo the widths. */
  lemma {:induction false} FromIdIsLast(ts: seq<ScalarType>, k: nat)
    requires k < |ts| && forall j :: k < j < |ts| ==> !Congruent(ts[j], ts[k])
    ensures FromId(Registered(map[], ts), Id(ts[k])) == Found(ts[k])
    decreases |ts|
  {
    hide Id, Congruent;
    if k < |ts| - 1 {
      FromIdIsLast(ts[..|ts| - 1], k);
      SameIdIff(ts[|ts| - 1], ts[k]);
    }
  }

  lemma {:induction false} OnlyRegistered(ts: seq<ScalarType>, id: int)
    requires FromId(Registered(map[], ts), id).Found?
    ensures var t := FromId(Registered(map[], ts), id).t; t in ts && Id(t) == id
  {
    hide Id;
    if ts != [] && Id(ts[|ts| - 1]) != id {
      OnlyRegistered(ts[..|ts| - 1], id);
    }
  }

  lemma {:induction false} Remembered(ts: seq<ScalarType>, t: ScalarType)
    requires t in ts
    ensures FromId(Registered(map[], ts), Id(t)).Found?
  {
    hide Id;
    if ts[|ts| - 1] != t {
      assert ts == ts[..|ts| - 1] + [ts[|ts| - 1]];
      Remembered(ts[..|ts| - 1], t);
    }
  }

  /** After any sequence of constructions whose fields fit, from_id returns the very type an id came from,
      and knows no id but theirs. */
  lemma RoundTrip(ts: seq<ScalarType>, t: ScalarType)
    requires InRange(t) && forall u :: u in ts ==> InRange(u)
    ensures FromId(Registered(map[], ts), Id(t)) == if t in ts then Found(t) else Unknown
  {
    hide Id, Registered;
    if t in ts {
      Remembered(ts, t);
    }
    if FromId(Registered(map[], ts), Id(t)).Found? {
      OnlyRegistered(ts, Id(t));
      IdInjective(FromId(Registered(map[], ts), Id(t)).t, t);
    }
  }

  class TypeRegistry {
    var types: Registry

    constructor ()
      ensures types == map[]
    {
      types := map[];
    }

    method OrAndAdvance(val: nat, offset: nat, member: int, width: nat) returns (val': nat, offset': nat)
      ensures val' == Packed(val, offset, member, width) && offset' == offset + width
    {
      var mask := Pow2(width) - 1;
      val' := Or(val, Shl(And(member, mask), offset));
      offset' := offset + width;
    }

    method GetId(t: ScalarType) returns (id: nat)
      modifies this
      ensures id == Id(t) && types == Registered(old(types), [t])
    {
      hide Pack, Width, Packed;
      var val: nat, offset: nat := 0, 0;
      ghost var done: seq<(int, nat)> := [];
      NothingPacked();
      PackNext(done, t.exponent, 8);
      val, offset := OrAndAdvance(val, offset, t.exponent, 8);
      done := done + [(t.exponent, 8)];
      PackNext(done, t.mantissa, 8);
      val, offset := OrAndAdvance(val, offset, t.mantissa, 8);
      done := done + [(t.mantissa, 8)];
      PackNext(done, Bit(t.signed), 1);
      val, offset := OrAndAdvance(val, offset, Bit(t.signed), 1);
      done := done + [(Bit(t.signed) as int, 1)];
      PackNext(done, t.bias, 32);
      val, offset := OrAndAdvance(val, offset, t.bias, 32);
      done := done + [(t.bias, 32)];
      PackNext(done, Bit(t.finiteValuesOnly), 1);
      val, offset := OrAndAdvance(val, offset, Bit(t.finiteValuesOnly), 1);
      done := done + [(Bit(t.finiteValuesOnly) as int, 1)];
      PackNext(done, t.nanRepr.Value(), 8);
      val, offset := OrAndAdvance(val, offset, t.nanRepr.Value(), 8);
      done := done + [(t.nanRepr.Value() as int, 8)];
      assert done == Fields(t);
      id := val;
      RegisterOne(types, t);
      types := types[id := t];
    }

    method TypeOf(id: int) returns (r: Lookup)
      ensures r == FromId(types, id)
    {
      r := if id in types then Found(types[id]) else Unknown;
    }
  }

  lemma RegisterOne(r: Registry, t: ScalarType)
    ensures Registered(r, [t]) == r[Id(t) := t]
  {
    assert [t][..0] == [];
  }

  // ---- integer ranges ----------------------------------------------------------------------------------

  function SizeBits(t: ScalarType): int {
    t.exponent + t.mantissa + Bit(t.signed)
  }

  datatype Bound = AssertionFails | Is(value: int)

  /** For integer types; the mantissa counts the bits besides the sign. */
  function RawMax(t: ScalarType): Bound
    requires t.exponent == 0 && t.mantissa >= 0
  {
    if SizeBits(t) < 64 || (SizeBits(t) == 64 && t.signed) then Is(Pow2(t.mantissa) - 1) else AssertionFails
  }

  function RawMin(t: ScalarType): Bound
    requires t.exponent == 0 && t.mantissa >= 0
  {
    if t.signed && SizeBits(t) > 64 then AssertionFails
    else if t.signed then (var p: int := Pow2(SizeBits(t) - 1); Is(-p)) else Is(0)
  }

  /** An integer type's range holds one value per bit pattern, whatever the bias, and a 64-bit type has one
      only if it is signed. */
  lemma RangeIsBitPatterns(t: ScalarType)
    requires t.exponent == 0 && t.mantissa >= 0
    ensures RawMax(t).Is? <==> SizeBits(t) <= (if t.signed then 64 else 63)
    ensures RawMax(t).Is? ==>
      && RawMin(t).Is? && (RawMax(t).value - t.bias) - (RawMin(t).value - t.bias) + 1 == Pow2(SizeBits(t))
      && (t.signed ==> RawMin(t).value == -RawMax(t).value - 1)
  {
    if t.signed {
      assert SizeBits(t) - 1 == t.mantissa;
    }
  }
}
